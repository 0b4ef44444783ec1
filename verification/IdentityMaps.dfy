/** The identity map module (modules/identitymap/src/identitymap.c). */
module IdentityMaps {
  import opened Bytes
  import opened Messages
  import opened PropertyMaps

  // ----- Names used in messages, as their ASCII bytes -----

  const MAC_ADDRESS: CString := [0x6D, 0x61, 0x63, 0x41, 0x64, 0x64, 0x72, 0x65, 0x73, 0x73]  // macAddress
  const SOURCE: CString := [0x73, 0x6F, 0x75, 0x72, 0x63, 0x65]  // source
  const DEVICE_NAME: CString := [0x64, 0x65, 0x76, 0x69, 0x63, 0x65, 0x4E, 0x61, 0x6D, 0x65]  // deviceName
  const DEVICE_KEY: CString := [0x64, 0x65, 0x76, 0x69, 0x63, 0x65, 0x4B, 0x65, 0x79]  // deviceKey
  const MAPPING: CString := [0x6D, 0x61, 0x70, 0x70, 0x69, 0x6E, 0x67]  // mapping
  const IOTHUB: CString := [0x69, 0x6F, 0x74, 0x68, 0x75, 0x62]  // iothub

  // ----- Strings -----

  /** strcmp: negative, zero or positive as a is before, equal to or after b. */
  function StrCmp(a: CString, b: CString): int {
    if a == [] && b == [] then 0
    else if a == [] then -1
    else if b == [] then 1
    else if a[0] != b[0] then a[0] - b[0]
    else StrCmp(a[1..], b[1..])
  }

  predicate AtMost(a: CString, b: CString) {
    StrCmp(a, b) <= 0
  }

  lemma {:induction false} StrCmpZero(a: CString, b: CString)
    ensures StrCmp(a, b) == 0 <==> a == b
    ensures StrCmp(a, b) < 0 <==> StrCmp(b, a) > 0
  {
    if a != [] && b != [] {
      assert a == [a[0]] + a[1..] && b == [b[0]] + b[1..];
      StrCmpZero(a[1..], b[1..]);
    }
  }

  lemma {:induction false} AtMostTransitive(a: CString, b: CString, c: CString)
    requires AtMost(a, b) && AtMost(b, c)
    ensures AtMost(a, c)
  {
    if a != [] && b != [] && c != [] && a[0] == b[0] == c[0] {
      AtMostTransitive(a[1..], b[1..], c[1..]);
    }
  }

  /** toupper in the C locale */
  function UpperByte(c: byte): byte {
    if 0x61 <= c <= 0x7A then c - 0x20 else c
  }

  function Upper(s: CString): (r: CString)
    ensures |r| == |s| && forall i :: 0 <= i < |s| ==> r[i] == UpperByte(s[i])
  {
    if s == [] then [] else [UpperByte(s[0])] + Upper(s[1..])
  }

  lemma UpperTwice(s: CString)
    ensures Upper(Upper(s)) == Upper(s)
  {
  }

  predicate IsHex(c: byte) {
    0x30 <= c <= 0x39 || 0x41 <= c <= 0x46 || 0x61 <= c <= 0x66
  }

  /** XX:XX:XX:XX:XX:XX with hexadecimal digits of either case. */
  predicate Canonical(mac: CString) {
    |mac| == 17 && forall i :: 0 <= i < 17 ==> if i % 3 == 2 then mac[i] == 0x3A else IsHex(mac[i])
  }

  const DIGITS: seq<nat> := [0, 1, 3, 4, 6, 7, 9, 10, 12, 13, 15, 16]
  const COLONS: seq<nat> := [2, 5, 8, 11, 14]

  lemma PositionsCover(i: nat)
    requires i < 17
    ensures if i % 3 == 2 then exists j :: 0 <= j < 5 && COLONS[j] == i else exists j :: 0 <= j < 12 && DIGITS[j] == i
  {
    if i % 3 == 2 { assert COLONS[i / 3] == i; } else { assert DIGITS[i / 3 * 2 + i % 3] == i; }
  }

  /** IdentityMapConfig_IsCanonicalMAC: the digits are checked first, then the colons. */
  method IsCanonicalMac(mac: CString) returns (recognized: bool)
    ensures recognized <==> Canonical(mac)
  {
    if |mac| != 17 {
      return false;
    }
    var i := 0;
    while i < 12
      invariant 0 <= i <= 12 && forall j :: 0 <= j < i ==> IsHex(mac[DIGITS[j]])
    {
      if !IsHex(mac[DIGITS[i]]) {
        return false;
      }
      i := i + 1;
    }
    i := 0;
    while i < 5
      invariant 0 <= i <= 5 && forall j :: 0 <= j < i ==> mac[COLONS[j]] == 0x3A
    {
      if mac[COLONS[i]] != 0x3A {
        return false;
      }
      i := i + 1;
    }
    forall k | 0 <= k < 17 ensures if k % 3 == 2 then mac[k] == 0x3A else IsHex(mac[k]) {
      PositionsCover(k);
    }
    return true;
  }

  lemma UpperCanonical(mac: CString)
    ensures Canonical(Upper(mac)) <==> Canonical(mac)
  {
  }

  // ----- The configuration and its two indexes -----

  /** An IDENTITY_MAP_CONFIG as configured; any field may be NULL. */
  datatype RawConfig = RawConfig(mac: Option<CString>, id: Option<CString>, key: Option<CString>)

  datatype Config = Config(mac: CString, id: CString, key: CString)

  predicate ValidRaw(c: RawConfig) {
    c.mac.Some? && c.id.Some? && c.key.Some? && Canonical(c.mac.value)
  }

  /** IdentityMapConfig_CopyDeep */
  function CopyOf(c: RawConfig): Config
    requires ValidRaw(c)
  {
    Config(Upper(c.mac.value), c.id.value, c.key.value)
  }

  predicate ValidConfig(raw: seq<RawConfig>) {
    raw != [] && forall i :: 0 <= i < |raw| ==> ValidRaw(raw[i])
  }

  function Entries(raw: seq<RawConfig>): (es: seq<Config>)
    requires forall i :: 0 <= i < |raw| ==> ValidRaw(raw[i])
    ensures |es| == |raw| && forall i :: 0 <= i < |raw| ==> es[i] == CopyOf(raw[i])
  {
    if raw == [] then [] else Entries(raw[..|raw| - 1]) + [CopyOf(raw[|raw| - 1])]
  }

  /** What one of the two comparison functions looks at. */
  function KeyOf(c: Config, byMac: bool): CString {
    if byMac then c.mac else c.id
  }

  predicate Sorted(s: seq<Config>, byMac: bool) {
    forall i, j :: 0 <= i < j < |s| ==> AtMost(KeyOf(s[i], byMac), KeyOf(s[j], byMac))
  }

  /** The linear search of the configuration. */
  function Find(es: seq<Config>, key: CString, byMac: bool): (r: Option<Config>)
    ensures r.Some? ==> r.value in es && KeyOf(r.value, byMac) == key
    ensures r.None? ==> forall e :: e in es ==> KeyOf(e, byMac) != key
  {
    if es == [] then None
    else if KeyOf(es[0], byMac) == key then Some(es[0])
    else Find(es[1..], key, byMac)
  }

  predicate DistinctKeys(es: seq<Config>, byMac: bool) {
    forall i, j :: 0 <= i < j < |es| ==> KeyOf(es[i], byMac) != KeyOf(es[j], byMac)
  }

  /** With distinct keys the search finds the one element there is, wherever it stands. */
  lemma FindUnique(es: seq<Config>, e: Config, byMac: bool)
    requires DistinctKeys(es, byMac) && e in es
    ensures Find(es, KeyOf(e, byMac), byMac) == Some(e)
  {
    var i :| 0 <= i < |es| && es[i] == e;
    var f := Find(es, KeyOf(e, byMac), byMac).value;
    var j :| 0 <= j < |es| && es[j] == f;
  }

  /** bsearch on one of the arrays; the length of the array stands for NULL. */
  method BSearch(a: array<Config>, key: CString, byMac: bool) returns (i: nat)
    requires Sorted(a[..], byMac)
    ensures i <= a.Length && (i < a.Length ==> KeyOf(a[i], byMac) == key)
    ensures i == a.Length ==> forall j :: 0 <= j < a.Length ==> KeyOf(a[j], byMac) != key
  {
    var lo, hi := 0, a.Length;
    while lo < hi
      invariant 0 <= lo <= hi <= a.Length
      invariant forall j :: 0 <= j < lo ==> KeyOf(a[j], byMac) != key
      invariant forall j :: hi <= j < a.Length ==> KeyOf(a[j], byMac) != key
    {
      var mid := (lo + hi) / 2;
      var c := StrCmp(key, KeyOf(a[mid], byMac));
      Side(a[..], key, mid, byMac);
      if c == 0 {
        StrCmpZero(key, KeyOf(a[mid], byMac));
        return mid;
      }
      if c < 0 {
        hi := mid;
      } else {
        lo := mid + 1;
      }
    }
    return a.Length;
  }

  /** An element that compares unequal rules out everything on its far side. */
  lemma Side(s: seq<Config>, key: CString, mid: nat, byMac: bool)
    requires Sorted(s, byMac) && mid < |s|
    ensures StrCmp(key, KeyOf(s[mid], byMac)) < 0 ==> forall j :: mid <= j < |s| ==> KeyOf(s[j], byMac) != key
    ensures StrCmp(key, KeyOf(s[mid], byMac)) > 0 ==> forall j :: 0 <= j <= mid ==> KeyOf(s[j], byMac) != key
  {
    StrCmpZero(key, KeyOf(s[mid], byMac));
    StrCmpZero(KeyOf(s[mid], byMac), KeyOf(s[mid], byMac));
    forall j | 0 <= j < |s| && KeyOf(s[j], byMac) == key
      ensures (j < mid ==> StrCmp(key, KeyOf(s[mid], byMac)) <= 0)
              && (mid < j ==> StrCmp(key, KeyOf(s[mid], byMac)) >= 0) {
      StrCmpZero(KeyOf(s[mid], byMac), key);
      if mid < j { assert AtMost(KeyOf(s[mid], byMac), key); }
      if j < mid { assert AtMost(key, KeyOf(s[mid], byMac)); }
    }
  }

  // ----- Sorting -----

  function Swapped(s: seq<Config>, j: nat): (r: seq<Config>)
    requires 0 < j < |s|
    ensures |r| == |s|
  {
    s[j - 1 := s[j]][j := s[j - 1]]
  }

  lemma SwappedKeeps(s: seq<Config>, j: nat)
    requires 0 < j < |s|
    ensures multiset(Swapped(s, j)) == multiset(s)
  {
    var (l, r) := (s[..j - 1], s[j + 1..]);
    assert s == l + [s[j - 1], s[j]] + r;
    assert Swapped(s, j) == l + [s[j], s[j - 1]] + r;
  }

  /** The first n elements are sorted but for the one at j, which may have to go further down. */
  predicate Sinking(s: seq<Config>, n: nat, j: nat, byMac: bool)
    requires n <= |s|
  {
    forall p, q :: 0 <= p < q < n && q != j ==> AtMost(KeyOf(s[p], byMac), KeyOf(s[q], byMac))
  }

  lemma SinkStep(s: seq<Config>, n: nat, j: nat, byMac: bool)
    requires 0 < j < n <= |s| && Sinking(s, n, j, byMac) && !AtMost(KeyOf(s[j - 1], byMac), KeyOf(s[j], byMac))
    ensures Sinking(Swapped(s, j), n, j - 1, byMac)
  {
    StrCmpZero(KeyOf(s[j - 1], byMac), KeyOf(s[j], byMac));
    assert AtMost(KeyOf(s[j], byMac), KeyOf(s[j - 1], byMac));
    hide AtMost, KeyOf;
  }

  lemma Sunk(s: seq<Config>, n: nat, j: nat, byMac: bool)
    requires j < n <= |s| && Sinking(s, n, j, byMac)
    requires j == 0 || AtMost(KeyOf(s[j - 1], byMac), KeyOf(s[j], byMac))
    ensures Sorted(s[..n], byMac)
  {
    forall p | 0 <= p < j ensures AtMost(KeyOf(s[p], byMac), KeyOf(s[j], byMac)) {
      if p < j - 1 {
        AtMostTransitive(KeyOf(s[p], byMac), KeyOf(s[j - 1], byMac), KeyOf(s[j], byMac));
      }
    }
  }

  /** qsort: the contract of the C library, met here by insertion. */
  method QSort(a: array<Config>, byMac: bool)
    modifies a
    ensures Sorted(a[..], byMac) && multiset(a[..]) == multiset(old(a[..]))
  {
    var n := 0;
    while n < a.Length
      invariant 0 <= n <= a.Length && Sorted(a[..n], byMac) && multiset(a[..]) == multiset(old(a[..]))
    {
      Sink(a, n, byMac);
      n := n + 1;
    }
    assert a[..n] == a[..];
  }

  method Sink(a: array<Config>, n: nat, byMac: bool)
    requires n < a.Length && Sorted(a[..n], byMac)
    modifies a
    ensures Sorted(a[..n + 1], byMac) && multiset(a[..]) == multiset(old(a[..]))
  {
    var j := n;
    assert forall k :: 0 <= k < n ==> a[..n][k] == a[..][k];
    hide Sorted, AtMost, KeyOf, Swapped;
    while j > 0 && !AtMost(KeyOf(a[j - 1], byMac), KeyOf(a[j], byMac))
      invariant 0 <= j <= n && Sinking(a[..], n + 1, j, byMac) && multiset(a[..]) == multiset(old(a[..]))
    {
      SinkStep(a[..], n + 1, j, byMac);
      SwappedKeeps(a[..], j);
      SwapAt(a, j);
      j := j - 1;
    }
    Sunk(a[..], n + 1, j, byMac);
    assert a[..][..n + 1] == a[..n + 1];
  }

  method SwapAt(a: array<Config>, j: nat)
    requires 0 < j < a.Length
    modifies a
    ensures a[..] == Swapped(old(a[..]), j)
  {
    a[j - 1], a[j] := a[j], a[j - 1];
  }

  // ----- Messages -----

  datatype Direction = Ignored | CloudToDevice | DeviceToCloud

  /** determine_message_direction */
  function DirectionOf(source: Option<CString>): Direction {
    if source == None || source.value == MAPPING then Ignored
    else if source.value == IOTHUB then CloudToDevice
    else DeviceToCloud
  }

  /** What a message asks for: the array to search and the key, if the message is looked at all. */
  function Request(m: Message): Option<(bool, CString)> {
    var (mac, name, key) := (Get(m.props, MAC_ADDRESS), Get(m.props, DEVICE_NAME), Get(m.props, DEVICE_KEY));
    match DirectionOf(Get(m.props, SOURCE))
    case Ignored => None
    case CloudToDevice => if name == None then None else Some((false, name.value))
    case DeviceToCloud =>
      if mac == None || (name.Some? && key.Some?) || !Canonical(Upper(mac.value)) then None
      else Some((true, Upper(mac.value)))
  }

  /** IdentityMap_RepublishD2C */
  function DeviceAnswer(m: Message, e: Config): Message {
    m.(props := Delete(Put(Put(Put(m.props, DEVICE_NAME, e.id), DEVICE_KEY, e.key), SOURCE, MAPPING), MAC_ADDRESS))
  }

  /** IdentityMap_RepublishC2D; the device key need not be there. */
  function CloudAnswer(m: Message, e: Config): Message {
    m.(props := Delete(Delete(Put(Put(m.props, MAC_ADDRESS, e.mac), SOURCE, MAPPING), DEVICE_NAME), DEVICE_KEY))
  }

  function Answer(m: Message, e: Config, byMac: bool): Message {
    if byMac then DeviceAnswer(m, e) else CloudAnswer(m, e)
  }

  /** The published message, if any, answers the request with an element that has the key. */
  ghost predicate IsAnswer(es: seq<Config>, m: Message, r: Option<Message>) {
    match Request(m)
    case None => r == None
    case Some((byMac, key)) =>
      if Find(es, key, byMac) == None then r == None
      else r.Some? && exists e :: e in es && KeyOf(e, byMac) == key && r.value == Answer(m, e, byMac)
  }

  class IdentityMap {
    const macToDevIdArray: array<Config>
    const devIdToMacArray: array<Config>
    ghost const entries: seq<Config>

    ghost predicate Valid()
      reads macToDevIdArray, devIdToMacArray
    {
      && Sorted(macToDevIdArray[..], true) && Sorted(devIdToMacArray[..], false)
      && multiset(macToDevIdArray[..]) == multiset(entries) && multiset(devIdToMacArray[..]) == multiset(entries)
    }

    /** The part of IdentityMap_Create that fills and sorts the arrays. */
    constructor (raw: seq<RawConfig>)
      requires ValidConfig(raw)
      ensures Valid() && entries == Entries(raw) && fresh(macToDevIdArray) && fresh(devIdToMacArray)
    {
      var a := CopyAll(raw);
      var b := CopyAll(raw);
      QSort(a, true);
      QSort(b, false);
      macToDevIdArray, devIdToMacArray, entries := a, b, Entries(raw);
    }

    /** IdentityMap_Receive; the result is the message published, if any. */
    method Receive(m: Message, memory: bool) returns (r: Option<Message>)
      requires Valid()
      ensures if memory then IsAnswer(entries, m, r) else r == None
    {
      var request := Request(m);
      if request == None || !memory {
        return None;
      }
      var (byMac, key) := request.value;
      var a := if byMac then macToDevIdArray else devIdToMacArray;
      var i := BSearch(a, key, byMac);
      SameElements(a[..], entries);
      hide Request, Answer, Sorted, KeyOf;
      if i == a.Length {
        assert forall e :: e in entries ==> e in a[..];
        return None;
      }
      assert a[..][i] == a[i];
      return Some(Answer(m, a[i], byMac));
    }
  }

  lemma SameElements(s: seq<Config>, t: seq<Config>)
    requires multiset(s) == multiset(t)
    ensures forall c :: c in s <==> c in t
  {
    forall c ensures c in s <==> c in t {
      assert c in multiset(s) <==> c in multiset(t);
    }
  }

  method CopyAll(raw: seq<RawConfig>) returns (a: array<Config>)
    requires ValidConfig(raw)
    ensures fresh(a) && a[..] == Entries(raw)
  {
    a := new Config[|raw|](_ => Config([], [], []));
    var i := 0;
    while i < |raw|
      invariant 0 <= i <= |raw| && a.Length == |raw|
      invariant forall j :: 0 <= j < i ==> a[j] == CopyOf(raw[j])
    {
      a[i] := CopyOf(raw[i]);
      i := i + 1;
    }
  }

  /** IdentityMap_ValidateConfig */
  method ValidateConfig(raw: seq<RawConfig>) returns (ok: bool)
    ensures ok <==> ValidConfig(raw)
  {
    if |raw| == 0 {
      return false;
    }
    var i := 0;
    while i < |raw|
      invariant 0 <= i <= |raw| && forall j :: 0 <= j < i ==> ValidRaw(raw[j])
    {
      if raw[i].id == None || raw[i].key == None || raw[i].mac == None {
        return false;
      }
      var canonical := IsCanonicalMac(raw[i].mac.value);
      if !canonical {
        return false;
      }
      i := i + 1;
    }
    return true;
  }

  /** IdentityMap_Create */
  method Create(broker: bool, configuration: Option<seq<RawConfig>>, memory: bool) returns (r: IdentityMap?)
    ensures r != null <==> broker && configuration.Some? && ValidConfig(configuration.value) && memory
    ensures r != null ==> fresh(r) && r.Valid() && r.entries == Entries(configuration.value)
  {
    if !broker || configuration == None {
      return null;
    }
    var ok := ValidateConfig(configuration.value);
    if !ok || !memory {
      return null;
    }
    r := new IdentityMap(configuration.value);
  }

  // ----- What a republished message says -----

  lemma NamesDiffer()
    ensures MAC_ADDRESS != SOURCE && MAC_ADDRESS != DEVICE_NAME && MAC_ADDRESS != DEVICE_KEY
    ensures SOURCE != DEVICE_NAME && SOURCE != DEVICE_KEY && DEVICE_NAME != DEVICE_KEY && MAPPING != IOTHUB
  {
    assert MAC_ADDRESS[0] != DEVICE_NAME[0];
  }

  /** Going to the cloud a message carries the identity found and no MAC address; the rest is kept. */
  lemma DeviceAnswerSays(m: Message, e: Config)
    requires Valid(m)
    ensures var r := DeviceAnswer(m, e);
            && Valid(r) && r.content == m.content
            && Get(r.props, DEVICE_NAME) == Some(e.id) && Get(r.props, DEVICE_KEY) == Some(e.key)
            && Get(r.props, SOURCE) == Some(MAPPING) && Get(r.props, MAC_ADDRESS) == None
            && forall k :: k !in {DEVICE_NAME, DEVICE_KEY, SOURCE, MAC_ADDRESS} ==> Get(r.props, k) == Get(m.props, k)
  {
    NamesDiffer();
    hide MAC_ADDRESS, SOURCE, DEVICE_NAME, DEVICE_KEY, Get, Put, Delete;
    var a := Put(m.props, DEVICE_NAME, e.id);
    var b := Put(a, DEVICE_KEY, e.key);
    var c := Put(b, SOURCE, MAPPING);
    PutLaws(m.props, DEVICE_NAME, e.id);
    PutLaws(a, DEVICE_KEY, e.key);
    PutLaws(b, SOURCE, MAPPING);
    DeleteLaws(c, MAC_ADDRESS);
  }

  /** Going to the device it carries the MAC address and no identity; the rest is kept. */
  lemma CloudAnswerSays(m: Message, e: Config)
    requires Valid(m)
    ensures var r := CloudAnswer(m, e);
            && Valid(r) && r.content == m.content
            && Get(r.props, MAC_ADDRESS) == Some(e.mac) && Get(r.props, SOURCE) == Some(MAPPING)
            && Get(r.props, DEVICE_NAME) == None && Get(r.props, DEVICE_KEY) == None
            && forall k :: k !in {DEVICE_NAME, DEVICE_KEY, SOURCE, MAC_ADDRESS} ==> Get(r.props, k) == Get(m.props, k)
  {
    NamesDiffer();
    hide MAC_ADDRESS, SOURCE, DEVICE_NAME, DEVICE_KEY, Get, Put, Delete;
    var a := Put(m.props, MAC_ADDRESS, e.mac);
    var b := Put(a, SOURCE, MAPPING);
    var c := Delete(b, DEVICE_NAME);
    PutLaws(m.props, MAC_ADDRESS, e.mac);
    PutLaws(a, SOURCE, MAPPING);
    DeleteLaws(b, DEVICE_NAME);
    DeleteLaws(c, DEVICE_KEY);
  }

  /** What the map publishes it ignores when it comes back, so no message goes round for ever. */
  lemma AnswerIsIgnored(m: Message, e: Config, byMac: bool, es: seq<Config>, r: Option<Message>)
    requires Valid(m) && IsAnswer(es, Answer(m, e, byMac), r)
    ensures r == None
  {
    DeviceAnswerSays(m, e);
    CloudAnswerSays(m, e);
    hide Get, DeviceAnswer, CloudAnswer;
  }

  // ----- The two directions are inverse -----

  lemma EntriesCanonical(raw: seq<RawConfig>, e: Config)
    requires ValidConfig(raw) && e in Entries(raw)
    ensures Canonical(e.mac) && Upper(e.mac) == e.mac
  {
    var i :| 0 <= i < |raw| && Entries(raw)[i] == e;
    UpperCanonical(raw[i].mac.value);
    UpperTwice(raw[i].mac.value);
  }

  /** With distinct keys the answer is the one the linear search gives. */
  lemma AnswerIsLinear(es: seq<Config>, m: Message, r: Option<Message>)
    requires IsAnswer(es, m, r) && Request(m).Some? && DistinctKeys(es, Request(m).value.0)
    ensures var (byMac, key) := Request(m).value;
            r == match Find(es, key, byMac) case None => None case Some(e) => Some(Answer(m, e, byMac))
  {
    var (byMac, key) := Request(m).value;
    hide Request, Answer, DistinctKeys, KeyOf, Find;
    if r.Some? {
      var e :| e in es && KeyOf(e, byMac) == key && r.value == Answer(m, e, byMac);
      FindUnique(es, e, byMac);
    }
  }

  /**
   * From MAC address to identity and back: what the cloud sends to the device name that a message
   * was given reaches the MAC address the message came with, in upper case.
   */
  lemma MacToIdToMac(es: seq<Config>, m: Message, up: Message, reply: Message, down: Option<Message>)
    requires Valid(m) && Valid(reply) && DistinctKeys(es, false)
    requires Request(m).Some? && Request(m).value.0 && IsAnswer(es, m, Some(up))
    requires Get(reply.props, SOURCE) == Some(IOTHUB)
    requires Get(reply.props, DEVICE_NAME) == Get(up.props, DEVICE_NAME)
    requires IsAnswer(es, reply, down)
    ensures down.Some? && Get(m.props, MAC_ADDRESS).Some?
    ensures Get(down.value.props, MAC_ADDRESS) == Some(Upper(Get(m.props, MAC_ADDRESS).value))
  {
    var key := Request(m).value.1;
    var e :| e in es && KeyOf(e, true) == key && up == Answer(m, e, true);
    DeviceAnswerSays(m, e);
    assert Request(reply) == Some((false, e.id)) by { NamesDiffer(); hide Get; }
    FindUnique(es, e, false);
    hide Get, DeviceAnswer, CloudAnswer, DistinctKeys;
    AnswerIsLinear(es, reply, down);
    CloudAnswerSays(reply, e);
  }

  lemma DeviceRequest(m: Message)
    requires DirectionOf(Get(m.props, SOURCE)).DeviceToCloud?
    requires Get(m.props, DEVICE_NAME) == None || Get(m.props, DEVICE_KEY) == None
    requires Get(m.props, MAC_ADDRESS).Some? && Canonical(Upper(Get(m.props, MAC_ADDRESS).value))
    ensures Request(m) == Some((true, Upper(Get(m.props, MAC_ADDRESS).value)))
  {
  }

  /** From identity to MAC address and back, in whatever case the device writes its address. */
  lemma IdToMacToId(raw: seq<RawConfig>, m: Message, down: Message, reply: Message, up: Option<Message>)
    requires ValidConfig(raw) && Valid(m) && Valid(reply) && DistinctKeys(Entries(raw), true)
    requires Request(m).Some? && !Request(m).value.0 && IsAnswer(Entries(raw), m, Some(down))
    requires DirectionOf(Get(reply.props, SOURCE)).DeviceToCloud?
    requires Get(reply.props, DEVICE_NAME) == None || Get(reply.props, DEVICE_KEY) == None
    requires Get(reply.props, MAC_ADDRESS).Some? && Get(down.props, MAC_ADDRESS).Some?
    requires Upper(Get(reply.props, MAC_ADDRESS).value) == Upper(Get(down.props, MAC_ADDRESS).value)
    requires IsAnswer(Entries(raw), reply, up)
    ensures up.Some? && Get(up.value.props, DEVICE_NAME) == Get(m.props, DEVICE_NAME)
  {
    var es := Entries(raw);
    var key := Request(m).value.1;
    var e :| e in es && KeyOf(e, false) == key && down == Answer(m, e, false);
    CloudAnswerSays(m, e);
    EntriesCanonical(raw, e);
    DeviceRequest(reply);
    hide Get, DeviceAnswer, CloudAnswer, DistinctKeys, Upper, Canonical, Request;
    FindUnique(es, e, true);
    AnswerIsLinear(es, reply, up);
    DeviceAnswerSays(reply, e);
  }
}
