/** The gateway message and its wire format (core/src/message.c). */
module Messages {
  import opened Bytes

  datatype Property = Property(key: CString, value: CString)

  /** A message: its properties in the order of the underlying map, and its content. */
  datatype Message = Message(props: seq<Property>, content: seq<byte>)

  /** A MAP holds each key once. */
  predicate UniqueKeys(ps: seq<Property>) {
    forall i, j :: 0 <= i < j < |ps| ==> ps[i].key != ps[j].key
  }

  predicate HasKey(ps: seq<Property>, key: CString) {
    exists i :: 0 <= i < |ps| && ps[i].key == key
  }

  predicate Valid(m: Message) {
    UniqueKeys(m.props)
  }

  const FIRST_MESSAGE_BYTE: byte := 0xA1
  const SECOND_MESSAGE_BYTE: byte := 0x60
  const MIN_MESSAGE_BUFFER_LENGTH := 14

  // ----- The format, as a specification -----

  function EncodeProp(p: Property): seq<byte> {
    (p.key + [0]) + (p.value + [0])
  }

  function EncodeProps(ps: seq<Property>): seq<byte> {
    if ps == [] then [] else EncodeProp(ps[0]) + EncodeProps(ps[1..])
  }

  function EncodedSize(m: Message): nat {
    14 + |EncodeProps(m.props)| + |m.content|
  }

  function Header(m: Message): seq<byte> {
    [FIRST_MESSAGE_BYTE, SECOND_MESSAGE_BYTE] + Be32(EncodedSize(m)) + Be32(|m.props|)
  }

  function Encode(m: Message): (b: seq<byte>)
    ensures |b| == EncodedSize(m)
  {
    Header(m) + EncodeProps(m.props) + Be32(|m.content|) + m.content
  }

  lemma {:induction false} EncodePropsAppend(ps: seq<Property>, p: Property)
    ensures EncodeProps(ps + [p]) == EncodeProps(ps) + EncodeProp(p)
  {
    if ps == [] {
      assert [p][1..] == [];
    } else {
      assert (ps + [p])[1..] == ps[1..] + [p];
      EncodePropsAppend(ps[1..], p);
    }
  }

  lemma {:induction false} EncodePropsMinimum(ps: seq<Property>)
    ensures |EncodeProps(ps)| >= 2 * |ps|
  {
    if ps != [] {
      EncodePropsMinimum(ps[1..]);
    }
  }

  // ----- The parser, as a function -----

  /** Parses n properties from pos on, adding each to acc as Map_Add does. */
  function ParseProps(b: seq<byte>, pos: nat, n: nat, acc: seq<Property>): (r: Option<(seq<Property>, nat)>)
    requires pos <= |b|
    ensures r.Some? ==> pos <= r.value.1 <= |b|
    decreases n
  {
    if n == 0 then Some((acc, pos))
    else
      var k := FirstNul(b, pos);
      if k == -1 then None
      else
        var v := FirstNul(b, k + 1);
        if v == -1 || HasKey(acc, b[pos..k]) then None
        else ParseProps(b, v + 1, n - 1, acc + [Property(b[pos..k], b[k + 1..v])])
  }

  /** The test of parse_int32_t for four bytes at a position; the sum is computed in 32 bits. */
  predicate PastEnd(position: int32, size: int32) {
    AddInt32(position, 4) > size
  }

  /** What the code does with an array; ReadsPastEnd is a read of bytes that are not in it. */
  datatype ReadOutcome = ReadsPastEnd | Returns(message: Option<Message>)

  /** The properties of an array, and the position of its content length. */
  function PropertiesOf(b: seq<byte>): (r: Option<(seq<Property>, nat)>)
    ensures r.Some? ==> 10 <= r.value.1 <= |b|
  {
    if |b| < MIN_MESSAGE_BUFFER_LENGTH then None
    else if b[0] != FIRST_MESSAGE_BYTE || b[1] != SECOND_MESSAGE_BYTE then None
    else if ReadInt32(b, 2) != |b| then None
    else
      var count := ReadInt32(b, 6);
      if count < 0 || count == INT32_MAX then None else ParseProps(b, 10, count, [])
  }

  function Read(b: seq<byte>): ReadOutcome
    requires |b| <= INT32_MAX
  {
    match PropertiesOf(b)
    case None => Returns(None)
    case Some((props, pos)) =>
      if PastEnd(pos, |b|) then Returns(None)
      else if pos + 4 > |b| then ReadsPastEnd
      else if AddInt32(pos + 4, ReadInt32(b, pos)) != |b| then Returns(None)
      else Returns(Some(Message(props, b[pos + 4..])))
  }

  function Decode(b: seq<byte>): Option<Message>
    requires |b| <= INT32_MAX
  {
    match Read(b)
    case ReadsPastEnd => None
    case Returns(r) => r
  }

  // ----- Decoding inverts encoding, in both directions -----

  /** A property stands at pos exactly when the parser's two searches find it there. */
  lemma PropIffParsed(b: seq<byte>, pos: nat, p: Property)
    requires pos <= |b|
    ensures At(b, pos, EncodeProp(p)) <==>
            var k := FirstNul(b, pos);
            && k == pos + |p.key| && b[pos..k] == p.key
            && var v := FirstNul(b, k + 1);
               v == k + 1 + |p.value| && b[k + 1..v] == p.value
  {
    AtConcat(b, pos, p.key + [0], p.value + [0]);
    StringIffFirstNul(b, pos, p.key);
    if pos + |p.key| + 1 <= |b| {
      StringIffFirstNul(b, pos + |p.key| + 1, p.value);
    }
  }

  lemma UniqueKeysAppend(ps: seq<Property>, p: Property)
    requires UniqueKeys(ps)
    ensures UniqueKeys(ps + [p]) <==> !HasKey(ps, p.key)
  {
    var qs := ps + [p];
    if UniqueKeys(qs) {
      forall i | 0 <= i < |ps| ensures ps[i].key != p.key {
        assert qs[i].key != qs[|ps|].key;
      }
    }
  }

  lemma UniqueKeysPrefix(ps: seq<Property>, qs: seq<Property>)
    requires UniqueKeys(ps + qs)
    ensures UniqueKeys(ps)
  {
    forall i, j | 0 <= i < j < |ps| ensures ps[i].key != ps[j].key {
      assert (ps + qs)[i] == ps[i] && (ps + qs)[j] == ps[j];
    }
  }

  /** One property is parsed exactly when it stands at pos and its key is new. */
  lemma ParseOne(b: seq<byte>, pos: nat, n: nat, acc: seq<Property>, p: Property)
    requires pos <= |b| && At(b, pos, EncodeProp(p)) && !HasKey(acc, p.key)
    ensures ParseProps(b, pos, n + 1, acc) == ParseProps(b, pos + |EncodeProp(p)|, n, acc + [p])
  {
    PropIffParsed(b, pos, p);
    hide FirstNul, HasKey;
  }

  lemma ParsedOne(b: seq<byte>, pos: nat, n: nat, acc: seq<Property>) returns (p: Property)
    requires pos <= |b| && ParseProps(b, pos, n + 1, acc).Some?
    ensures At(b, pos, EncodeProp(p)) && !HasKey(acc, p.key)
    ensures ParseProps(b, pos, n + 1, acc) == ParseProps(b, pos + |EncodeProp(p)|, n, acc + [p])
  {
    hide FirstNul, HasKey;
    var k := FirstNul(b, pos);
    p := Property(b[pos..k], b[k + 1..FirstNul(b, k + 1)]);
    PropIffParsed(b, pos, p);
  }

  lemma PropsCons(b: seq<byte>, pos: nat, p: Property, rest: seq<Property>, acc: seq<Property>)
    requires pos <= |b| && At(b, pos, EncodeProp(p))
    ensures At(b, pos, EncodeProps([p] + rest)) <==> At(b, pos + |EncodeProp(p)|, EncodeProps(rest))
    ensures |EncodeProps([p] + rest)| == |EncodeProp(p)| + |EncodeProps(rest)|
    ensures acc + [p] + rest == acc + ([p] + rest)
  {
    assert ([p] + rest)[1..] == rest;
    AtConcat(b, pos, EncodeProp(p), EncodeProps(rest));
    hide EncodeProp;
  }

  /** ps is what the parser finds from pos on. */
  predicate Parsed(b: seq<byte>, pos: nat, n: nat, acc: seq<Property>, ps: seq<Property>)
    requires pos <= |b|
  {
    && |ps| == n && UniqueKeys(acc + ps) && At(b, pos, EncodeProps(ps))
    && ParseProps(b, pos, n, acc) == Some((acc + ps, pos + |EncodeProps(ps)|))
  }

  lemma ParsedNone(b: seq<byte>, pos: nat, acc: seq<Property>)
    requires pos <= |b| && UniqueKeys(acc)
    ensures Parsed(b, pos, 0, acc, [])
  {
    assert acc + [] == acc && b[pos..pos] == [];
    hide UniqueKeys;
  }

  lemma ParsedCons(b: seq<byte>, pos: nat, n: nat, acc: seq<Property>, p: Property, rest: seq<Property>)
    requires pos <= |b| && At(b, pos, EncodeProp(p)) && !HasKey(acc, p.key) && pos + |EncodeProp(p)| <= |b|
    requires Parsed(b, pos + |EncodeProp(p)|, n, acc + [p], rest)
    ensures Parsed(b, pos, n + 1, acc, [p] + rest)
  {
    hide HasKey, UniqueKeys, ParseProps, EncodeProp, EncodeProps, At;
    ParseOne(b, pos, n, acc, p);
    PropsCons(b, pos, p, rest, acc);
  }

  lemma {:induction false} ParseSound(b: seq<byte>, pos: nat, n: nat, acc: seq<Property>)
    returns (ps: seq<Property>)
    requires pos <= |b| && UniqueKeys(acc) && ParseProps(b, pos, n, acc).Some?
    ensures Parsed(b, pos, n, acc, ps)
    decreases n
  {
    hide Parsed, HasKey, UniqueKeys, ParseProps, EncodeProp, EncodeProps, At;
    if n == 0 {
      ParsedNone(b, pos, acc);
      ps := [];
    } else {
      var p := ParsedOne(b, pos, n - 1, acc);
      AtFits(b, pos, EncodeProp(p));
      UniqueKeysAppend(acc, p);
      var rest := ParseSound(b, pos + |EncodeProp(p)|, n - 1, acc + [p]);
      ParsedCons(b, pos, n - 1, acc, p, rest);
      ps := [p] + rest;
    }
  }

  lemma AtFits(b: seq<byte>, pos: nat, part: seq<byte>)
    requires At(b, pos, part)
    ensures pos + |part| <= |b|
  {
  }

  lemma {:induction false} ParseComplete(b: seq<byte>, pos: nat, ps: seq<Property>, acc: seq<Property>)
    requires pos <= |b| && UniqueKeys(acc + ps) && At(b, pos, EncodeProps(ps))
    ensures Parsed(b, pos, |ps|, acc, ps)
    decreases |ps|
  {
    if ps == [] {
      assert acc + ps == acc;
      ParsedNone(b, pos, acc);
    } else {
      var (p, rest) := (ps[0], ps[1..]);
      assert ps == [p] + rest;
      CompleteHead(b, pos, p, rest, acc);
      hide Parsed, HasKey, UniqueKeys, ParseProps, EncodeProp, EncodeProps, At;
      ParseComplete(b, pos + |EncodeProp(p)|, rest, acc + [p]);
      ParsedCons(b, pos, |rest|, acc, p, rest);
    }
  }

  lemma CompleteHead(b: seq<byte>, pos: nat, p: Property, rest: seq<Property>, acc: seq<Property>)
    requires pos <= |b| && UniqueKeys(acc + ([p] + rest)) && At(b, pos, EncodeProps([p] + rest))
    ensures At(b, pos, EncodeProp(p)) && pos + |EncodeProp(p)| <= |b| && !HasKey(acc, p.key)
    ensures At(b, pos + |EncodeProp(p)|, EncodeProps(rest)) && UniqueKeys(acc + [p] + rest)
  {
    assert ([p] + rest)[1..] == rest && acc + ([p] + rest) == acc + [p] + rest;
    hide HasKey, UniqueKeys, EncodeProp;
    AtConcat(b, pos, EncodeProp(p), EncodeProps(rest));
    UniqueKeysPrefix(acc + [p], rest);
    UniqueKeysPrefix(acc, [p]);
    UniqueKeysAppend(acc, p);
  }

  /** Where the parts of an encoding stand. */
  lemma EncodeParts(b: seq<byte>, m: Message)
    requires |b| == EncodedSize(m)
    ensures b == Encode(m) <==>
            && b[0] == FIRST_MESSAGE_BYTE && b[1] == SECOND_MESSAGE_BYTE
            && At(b, 2, Be32(EncodedSize(m))) && At(b, 6, Be32(|m.props|))
            && At(b, 10, EncodeProps(m.props))
            && At(b, 10 + |EncodeProps(m.props)|, Be32(|m.content|))
            && b[14 + |EncodeProps(m.props)|..] == m.content
  {
    var ps := EncodeProps(m.props);
    hide EncodeProps, Be32;
    var rest := Be32(|m.content|) + m.content;
    assert Encode(m) == [FIRST_MESSAGE_BYTE, SECOND_MESSAGE_BYTE]
                        + (Be32(EncodedSize(m)) + (Be32(|m.props|) + (ps + rest)));
    assert b == Encode(m) <==> At(b, 0, Encode(m));
    AtConcat(b, 0, [FIRST_MESSAGE_BYTE, SECOND_MESSAGE_BYTE], Be32(EncodedSize(m)) + (Be32(|m.props|) + (ps + rest)));
    AtConcat(b, 2, Be32(EncodedSize(m)), Be32(|m.props|) + (ps + rest));
    AtConcat(b, 6, Be32(|m.props|), ps + rest);
    AtConcat(b, 10, ps, rest);
    AtConcat(b, 10 + |ps|, Be32(|m.content|), m.content);
  }

  /** Decode, restated with the parts of the array as the parser meets them. */
  lemma DecodeParts(b: seq<byte>, props: seq<Property>, pos: nat)
    requires 14 <= |b| <= INT32_MAX && 10 <= pos <= |b| - 4
    requires b[0] == FIRST_MESSAGE_BYTE && b[1] == SECOND_MESSAGE_BYTE
    requires ReadInt32(b, 2) == |b| && ReadInt32(b, 6) == |props| < INT32_MAX
    requires ParseProps(b, 10, |props|, []) == Some((props, pos))
    requires ReadInt32(b, pos) == |b| - pos - 4
    ensures Decode(b) == Some(Message(props, b[pos + 4..]))
  {
    hide ReadInt32, ParseProps;
  }

  lemma DecodeOfEncode(m: Message)
    requires Valid(m) && EncodedSize(m) <= INT32_MAX
    ensures Decode(Encode(m)) == Some(m)
  {
    hide ReadInt32, Be32, Encode, EncodeProps, ParseProps, At, Read, Decode, UniqueKeys;
    var b := Encode(m);
    var pos := 10 + |EncodeProps(m.props)|;
    EncodePropsMinimum(m.props);
    EncodeParts(b, m);
    ReadIffAt(b, 2, EncodedSize(m));
    ReadIffAt(b, 6, |m.props|);
    ReadIffAt(b, pos, |m.content|);
    assert [] + m.props == m.props;
    ParseComplete(b, 10, m.props, []);
    DecodeParts(b, m.props, pos);
  }

  /** Although the sum may wrap around, only the true remaining length passes the check. */
  lemma ContentLength(pos: nat, contentSize: int32, size: nat)
    requires pos + 4 <= size <= INT32_MAX && AddInt32(pos + 4, contentSize) == size
    ensures contentSize == size - (pos + 4)
  {
  }

  lemma EncodeOfDecode(b: seq<byte>)
    requires |b| <= INT32_MAX && Decode(b).Some?
    ensures Valid(Decode(b).value) && Encode(Decode(b).value) == b
  {
    hide ReadInt32, Be32, Encode, EncodeProps, ParseProps, At, UniqueKeys;
    var m := Decode(b).value;
    assert UniqueKeys([]) by { NoKeys(); }
    var props := ParseSound(b, 10, ReadInt32(b, 6), []);
    assert [] + props == props == m.props;
    var pos := 10 + |EncodeProps(props)|;
    ContentLength(pos, ReadInt32(b, pos), |b|);
    hide Read, Decode;
    ReadIffAt(b, 2, |b|);
    ReadIffAt(b, 6, |props|);
    ReadIffAt(b, pos, |m.content|);
    EncodeParts(b, m);
  }

  lemma NoKeys()
    ensures UniqueKeys([])
  {
  }

  /** The parser accepts b as m exactly when b is the encoding of m: accepted bytes are canonical. */
  lemma DecodeIffEncode(b: seq<byte>, m: Message)
    requires |b| <= INT32_MAX
    ensures Read(b) == Returns(Some(m)) <==> Valid(m) && Encode(m) == b
    ensures Decode(b) == Some(m) <==> Valid(m) && Encode(m) == b
  {
    if Decode(b) == Some(m) {
      EncodeOfDecode(b);
    }
    if Valid(m) && Encode(m) == b {
      DecodeOfEncode(m);
    }
    hide PropertiesOf, Encode, Valid;
  }

  // ----- Where the 32-bit test does not protect the read -----

  /** The test says what it should exactly when the sum does not overflow. */
  lemma PastEndIff(position: int32, size: int32)
    requires 0 <= position <= size
    ensures (PastEnd(position, size) <==> position + 4 > size) <==> position <= INT32_MAX - 4
  {
  }

  /**
   * The code reads outside the array exactly when the properties end less than four bytes before the
   * largest int32, which takes an array of more than INT32_MAX - 4 bytes.
   */
  lemma ReadsPastEndIff(b: seq<byte>)
    requires |b| <= INT32_MAX
    ensures Read(b).ReadsPastEnd? <==> PropertiesOf(b).Some? && PropertiesOf(b).value.1 > INT32_MAX - 4
    ensures |b| <= INT32_MAX - 4 ==> Read(b) == Returns(Decode(b))
  {
    hide ReadInt32, ParseProps;
    if PropertiesOf(b).Some? {
      PastEndIff(PropertiesOf(b).value.1, |b|);
    }
  }

  function Ones(n: nat): (s: CString)
    ensures |s| == n
  {
    seq(n, _ => 1)
  }

  /** The one property of such an array; its value ends four bytes before the largest int32. */
  function LongProps(): (ps: seq<Property>)
    ensures |ps| == 1 && |EncodeProps(ps)| == INT32_MAX - 13
  {
    var ps := [Property([], Ones(INT32_MAX - 15))];
    assert ps[1..] == [];
    ps
  }

  function LongArray(): (b: seq<byte>)
    ensures |b| == INT32_MAX
  {
    [FIRST_MESSAGE_BYTE, SECOND_MESSAGE_BYTE] + (Be32(INT32_MAX) + (Be32(1) + (EncodeProps(LongProps()) + [0, 0, 0])))
  }

  lemma LongArrayParts()
    ensures var b := LongArray();
            && b[0] == FIRST_MESSAGE_BYTE && b[1] == SECOND_MESSAGE_BYTE
            && At(b, 2, Be32(INT32_MAX)) && At(b, 6, Be32(1)) && At(b, 10, EncodeProps(LongProps()))
  {
    var (b, e) := (LongArray(), EncodeProps(LongProps()));
    hide EncodeProps, LongProps, Be32;
    assert At(b, 0, b);
    AtConcat(b, 0, [FIRST_MESSAGE_BYTE, SECOND_MESSAGE_BYTE], Be32(INT32_MAX) + (Be32(1) + (e + [0, 0, 0])));
    AtConcat(b, 2, Be32(INT32_MAX), Be32(1) + (e + [0, 0, 0]));
    AtConcat(b, 6, Be32(1), e + [0, 0, 0]);
    AtConcat(b, 10, e, [0, 0, 0]);
  }

  /** The array of the largest int32 size whose properties end three bytes before its end. */
  lemma LongArrayReadsPastEnd()
    ensures Read(LongArray()) == ReadsPastEnd
  {
    var (b, ps) := (LongArray(), LongProps());
    LongArrayParts();
    assert UniqueKeys([] + ps) && [] + ps == ps;
    hide EncodeProps, Be32, UniqueKeys, LongProps, LongArray, At;
    ReadIffAt(b, 2, INT32_MAX);
    ReadIffAt(b, 6, 1);
    ParseComplete(b, 10, ps, []);
    assert PropertiesOf(b) == Some((ps, INT32_MAX - 3)) by { hide ReadInt32, ParseProps; }
    hide PropertiesOf;
  }

  /** The value of four bytes, most significant first, at position p. */
  function NumberAt(b: seq<byte>, p: nat): int
    requires p + 4 <= |b|
  {
    var (d3: int, d2: int, d1: int, d0: int) := (b[p], b[p + 1], b[p + 2], b[p + 3]);
    d3 * 0x100_0000 + d2 * 0x1_0000 + d1 * 0x100 + d0
  }

  lemma NumberOfBe32(a: seq<byte>, n: nat, c: seq<byte>)
    requires n < 0x1_0000_0000
    ensures NumberAt(a + Be32(n) + c, |a|) == n
  {
    WordOfBe32(n);
    assert forall k :: 0 <= k < 4 ==> (a + Be32(n) + c)[|a| + k] == Be32(n)[k];
    hide Be32;
  }

  lemma TailOf(a: seq<byte>, content: seq<byte>)
    ensures (a + content)[|a|..] == content
  {
  }

  /** The bytes of the array by position: marks, total size, number of properties, and at the end the content. */
  lemma LayoutIs(m: Message)
    requires EncodedSize(m) < 0x1_0000_0000
    ensures var (b, c) := (Encode(m), EncodedSize(m) - |m.content|);
            && b[0] == 0xA1 && b[1] == 0x60 && NumberAt(b, 2) == |b| && NumberAt(b, 6) == |m.props|
            && c >= 14 && NumberAt(b, c - 4) == |m.content| && b[c..] == m.content
  {
    EncodePropsMinimum(m.props);
    LayoutOf(EncodeProps(m.props), |m.props|, m.content);
    assert Encode(m) == [0xA1, 0x60] + Be32(14 + |EncodeProps(m.props)| + |m.content|) + Be32(|m.props|)
                        + EncodeProps(m.props) + Be32(|m.content|) + m.content;
    hide Encode, EncodeProps, Be32, NumberAt;
  }

  lemma LayoutOf(ps: seq<byte>, count: nat, content: seq<byte>)
    requires 14 + |ps| + |content| < 0x1_0000_0000 && count < 0x1_0000_0000
    ensures var (all, c) := (14 + |ps| + |content|, 14 + |ps|);
            var b := [0xA1, 0x60] + Be32(all) + Be32(count) + ps + Be32(|content|) + content;
            && |b| == all && b[0] == 0xA1 && b[1] == 0x60 && NumberAt(b, 2) == all && NumberAt(b, 6) == count
            && NumberAt(b, c - 4) == |content| && b[c..] == content
  {
    var all := 14 + |ps| + |content|;
    var (marks: seq<byte>, s, n, size) := ([0xA1, 0x60], Be32(all), Be32(count), Be32(|content|));
    var b := marks + s + n + ps + size + content;
    NumberOfBe32(marks, all, n + ps + size + content);
    NumberOfBe32(marks + s, count, ps + size + content);
    NumberOfBe32(marks + s + n + ps, |content|, content);
    TailOf(marks + s + n + ps + size, content);
    hide Be32, NumberAt;
    assert b == marks + s + (n + ps + size + content);
    assert b == (marks + s) + n + (ps + size + content);
  }

  lemma EncodeTwo(p: Property, q: Property)
    ensures EncodeProps([p, q]) == p.key + [0] + p.value + [0] + q.key + [0] + q.value + [0]
  {
    assert [p, q][1..] == [q] && [q][1..] == [];
    assert EncodeProps([q]) == EncodeProp(q) + [];
  }

  lemma SmallNumber(n: nat)
    requires n < 0x100
    ensures Be32(n) == [0, 0, 0, n]
  {
    Be32Digits(n);
    hide Be32;
  }

  /** The smallest array. */
  lemma SmallestArray()
    ensures Encode(Message([], [])) == [0xA1, 0x60, 0, 0, 0, 14, 0, 0, 0, 0, 0, 0, 0, 0]
  {
    SmallNumber(0);
    SmallNumber(14);
    hide Be32;
  }

  /** The array of a message with the properties "3" = "3" and "ab" = "a" and the content "34". */
  lemma SampleArray()
    ensures Encode(Message([Property([0x33], [0x33]), Property([0x61, 0x62], [0x61])], [0x33, 0x34]))
         == [0xA1, 0x60, 0, 0, 0, 25, 0, 0, 0, 2, 0x33, 0, 0x33, 0, 0x61, 0x62, 0, 0x61, 0, 0, 0, 0, 2, 0x33, 0x34]
  {
    var (p, q) := (Property([0x33], [0x33]), Property([0x61, 0x62], [0x61]));
    EncodeTwo(p, q);
    SmallNumber(2);
    SmallNumber(25);
    hide Be32, EncodeProps;
    SampleParts(Message([p, q], [0x33, 0x34]));
  }

  lemma SampleParts(m: Message)
    requires |m.props| == 2 && m.content == [0x33, 0x34] && Be32(2) == [0, 0, 0, 2] && Be32(25) == [0, 0, 0, 25]
    requires EncodeProps(m.props) == [0x33] + [0] + [0x33] + [0] + [0x61, 0x62] + [0] + [0x61] + [0]
    ensures Encode(m)
         == [0xA1, 0x60, 0, 0, 0, 25, 0, 0, 0, 2, 0x33, 0, 0x33, 0, 0x61, 0x62, 0, 0x61, 0, 0, 0, 0, 2, 0x33, 0x34]
  {
    hide Be32, EncodeProps;
    assert EncodeProps(m.props) == [0x33, 0, 0x33, 0, 0x61, 0x62, 0, 0x61, 0];
    assert Header(m) == [0xA1, 0x60, 0, 0, 0, 25, 0, 0, 0, 2];
  }

  /** No two byte arrays decode to the same message, and no two messages share an encoding. */
  lemma WireFormatIsInjective(b1: seq<byte>, b2: seq<byte>)
    requires |b1| <= INT32_MAX && |b2| <= INT32_MAX
    requires Decode(b1).Some? && Decode(b1) == Decode(b2)
    ensures b1 == b2
  {
    EncodeOfDecode(b1);
    EncodeOfDecode(b2);
  }

  /** What an accepted array says about its own length, property count and content length. */
  lemma AcceptedBounds(b: seq<byte>, m: Message)
    requires |b| <= INT32_MAX && Decode(b) == Some(m)
    ensures ReadInt32(b, 2) == |b|
    ensures 0 <= ReadInt32(b, 6) == |m.props| <= (|b| - 14) / 2
    ensures |m.content| <= |b| - 14 - 2 * |m.props| && b[|b| - |m.content|..] == m.content
    ensures ReadInt32(b, |b| - |m.content| - 4) == |m.content|
  {
    EncodeOfDecode(b);
    EncodePropsMinimum(m.props);
    EncodeParts(b, m);
    ReadIffAt(b, 2, |b|);
    ReadIffAt(b, 6, |m.props|);
    ReadIffAt(b, |b| - |m.content| - 4, |m.content|);
    hide ReadInt32, Be32, Encode, EncodeProps, Decode, At;
  }

  // ----- The two functions of the API -----

  /** Message_ToByteArray: sizes the message when size is 0, otherwise fills buf. */
  method ToByteArray(handle: Option<Message>, buf: array?<byte>, size: int32) returns (result: int32)
    // the caller's buffer has the announced size; a negative size is not checked by the code
    requires buf != null && size >= 0 ==> size <= buf.Length
    requires buf != null && size < 0 && handle.Some? ==> EncodedSize(handle.value) <= buf.Length
    modifies if buf == null then {} else {buf}
    ensures handle.None? || (buf == null && size != 0) ==> result == -1
    ensures handle.Some? && size == 0 ==> result == ToInt32(EncodedSize(handle.value))
    ensures handle.Some? && buf != null && 0 < size < EncodedSize(handle.value) ==> result == -1
    ensures buf != null && (handle.None? || size == 0 || 0 < size < EncodedSize(handle.value)) ==>
              buf[..] == old(buf[..])
    ensures handle.Some? && buf != null && (size < 0 || EncodedSize(handle.value) <= size) ==>
              && result == ToInt32(EncodedSize(handle.value))
              && buf[..] == Encode(handle.value) + old(buf[EncodedSize(handle.value)..])
  {
    if handle.None? || (buf == null && size != 0) {
      return -1;
    }
    var m := handle.value;
    var byteArraySize := NeededSize(m);
    if size == 0 {
      return ToInt32(byteArraySize);
    }
    if size > 0 && byteArraySize > size {
      return -1;
    }
    Fill(m, buf, byteArraySize);
    assert buf[..] == buf[..byteArraySize] + buf[byteArraySize..];
    return ToInt32(byteArraySize);
  }

  /** The sizing loop: header, counters, each name and value with its NUL, and the content. */
  method NeededSize(m: Message) returns (byteArraySize: nat)
    ensures byteArraySize == |Encode(m)|
  {
    byteArraySize := 2 + 4 + 4 + 0 + 4 + 0;
    for i := 0 to |m.props|
      invariant byteArraySize == 14 + |EncodeProps(m.props[..i])|
    {
      EncodePropsAppend(m.props[..i], m.props[i]);
      assert m.props[..i + 1] == m.props[..i] + [m.props[i]];
      byteArraySize := byteArraySize + (|m.props[i].key| + 1) + (|m.props[i].value| + 1);
    }
    assert m.props[..|m.props|] == m.props;
    byteArraySize := byteArraySize + |m.content|;
  }

  /** The filling code: writes the encoding and nothing after it. */
  method Fill(m: Message, buf: array<byte>, byteArraySize: nat)
    requires byteArraySize == |Encode(m)| <= buf.Length
    modifies buf
    ensures buf[..byteArraySize] == Encode(m)
    ensures forall k :: byteArraySize <= k < buf.Length ==> buf[k] == old(buf[k])
  {
    hide EncodeProp, Be32;
    var n := |m.props|;
    buf[0] := FIRST_MESSAGE_BYTE;
    buf[1] := SECOND_MESSAGE_BYTE;
    CopyBytes(buf, 2, Be32(byteArraySize));
    CopyBytes(buf, 6, Be32(n));
    var currentPosition := 10;
    for i := 0 to n
      invariant currentPosition == 10 + |EncodeProps(m.props[..i])| <= byteArraySize
      invariant buf[..currentPosition] == Header(m) + EncodeProps(m.props[..i])
      invariant forall k :: byteArraySize <= k < buf.Length ==> buf[k] == old(buf[k])
    {
      EncodePropsAppend(m.props[..i], m.props[i]);
      assert m.props[..i + 1] == m.props[..i] + [m.props[i]];
      EncodePropsPrefix(m.props, i + 1);
      currentPosition := FillProperty(m.props[i], buf, currentPosition, byteArraySize);
    }
    assert m.props[..n] == m.props;
    CopyBytes(buf, currentPosition, Be32(|m.content|));
    currentPosition := currentPosition + 4;
    CopyBytes(buf, currentPosition, m.content);
  }

  /** Copies one name and one value, each with its NUL. */
  method FillProperty(p: Property, buf: array<byte>, position: nat, limit: nat) returns (after: nat)
    requires position + |EncodeProp(p)| <= limit <= buf.Length
    modifies buf
    ensures after == position + |EncodeProp(p)|
    ensures buf[..after] == old(buf[..position]) + EncodeProp(p)
    ensures forall k :: limit <= k < buf.Length ==> buf[k] == old(buf[k])
  {
    CopyBytes(buf, position, p.key + [0]);
    after := position + |p.key| + 1;
    CopyBytes(buf, after, p.value + [0]);
    after := after + |p.value| + 1;
  }

  lemma {:induction false} EncodePropsPrefix(ps: seq<Property>, i: nat)
    requires i <= |ps|
    ensures |EncodeProps(ps[..i])| <= |EncodeProps(ps)|
    decreases |ps| - i
  {
    if i < |ps| {
      EncodePropsAppend(ps[..i], ps[i]);
      assert ps[..i + 1] == ps[..i] + [ps[i]];
      EncodePropsPrefix(ps, i + 1);
    } else {
      assert ps[..i] == ps;
    }
  }

  /**
   * Message_CreateFromByteArray; size is the length of the array the caller passes.  The outcome is
   * a message, NULL, or a read outside the array.
   */
  method CreateFromByteArray(source: array?<byte>, size: int32) returns (result: ReadOutcome)
    requires source != null && size >= 0 ==> size == source.Length
    ensures source == null || size < 0 ==> result == Returns(None)
    ensures source != null && size >= 0 ==>
              && (forall m :: result == Returns(Some(m)) <==> Valid(m) && Encode(m) == source[..])
              && (result == ReadsPastEnd <==>
                    PropertiesOf(source[..]).Some? && PropertiesOf(source[..]).value.1 > INT32_MAX - 4)
              && (size <= INT32_MAX - 4 ==> result != ReadsPastEnd)
  {
    if source == null || size < 0 {
      return Returns(None);
    }
    result := Parse(source);
    AllDecodings(source[..]);
    ReadsPastEndIff(source[..]);
    hide Read, Decode, Encode, Valid, PropertiesOf;
  }

  /** The body of Message_CreateFromByteArray after the check for a missing array. */
  method Parse(source: array<byte>) returns (result: ReadOutcome)
    requires source.Length <= INT32_MAX
    ensures result == Read(source[..])
  {
    hide ReadInt32, ParseProps;
    if source.Length < MIN_MESSAGE_BUFFER_LENGTH {
      return Returns(None);
    }
    if source[0] != FIRST_MESSAGE_BYTE || source[1] != SECOND_MESSAGE_BYTE {
      return Returns(None);
    }
    var currentPosition: nat := 2;
    var messageSize := ParseInt32(source, currentPosition);
    if messageSize != Value(source.Length) {
      return Returns(None);
    }
    currentPosition := currentPosition + 4;
    var propertiesCount := ParseInt32(source, currentPosition);
    if !propertiesCount.Value? || propertiesCount.value < 0 || propertiesCount.value == INT32_MAX {
      return Returns(None);
    }
    currentPosition := currentPosition + 4;
    var parsed := ParseProperties(source, currentPosition, propertiesCount.value);
    if parsed == None {
      return Returns(None);
    }
    var (configMap, position) := parsed.value;
    var contentSize := ParseInt32(source, position);
    match contentSize {
      case Refused => return Returns(None);
      case OutsideArray => return ReadsPastEnd;
      case Value(n) =>
        if AddInt32(position + 4, n) != messageSize.value {
          return Returns(None);
        }
        ContentLength(position, n, source.Length);
        assert source[position + 4..position + 4 + n] == source[..][position + 4..];
        return Returns(Some(Message(configMap, source[position + 4..position + 4 + n])));
    }
  }

  lemma ParsePropsCases(b: seq<byte>, pos: nat, n: nat, acc: seq<Property>)
    requires pos <= |b|
    ensures n == 0 ==> ParseProps(b, pos, n, acc) == Some((acc, pos))
    ensures n > 0 ==>
              var k := FirstNul(b, pos);
              if k == -1 || FirstNul(b, k + 1) == -1 || HasKey(acc, b[pos..k]) then ParseProps(b, pos, n, acc) == None
              else
                var v := FirstNul(b, k + 1);
                ParseProps(b, pos, n, acc) == ParseProps(b, v + 1, n - 1, acc + [Property(b[pos..k], b[k + 1..v])])
  {
  }

  /** The property loop: stops early at a missing NUL or a key already in the map. */
  method ParseProperties(source: array<byte>, start: nat, count: nat)
    returns (result: Option<(seq<Property>, nat)>)
    requires start <= source.Length
    ensures result == ParseProps(source[..], start, count, [])
  {
    hide FirstNul, HasKey, ParseProps;
    var currentPosition: nat := start;
    var configMap: seq<Property> := [];
    var i := 0;
    while i < count
      invariant 0 <= i <= count && currentPosition <= source.Length
      invariant ParseProps(source[..], start, count, [])
             == ParseProps(source[..], currentPosition, count - i, configMap)
    {
      ParsePropsCases(source[..], currentPosition, count - i, configMap);
      var key := ParseString(source, currentPosition);
      if key == None {
        break;
      }
      var afterKey := currentPosition + |key.value| + 1;
      var value := ParseString(source, afterKey);
      if value == None || HasKey(configMap, key.value) {
        break;
      }
      currentPosition := afterKey + |value.value| + 1;
      configMap := configMap + [Property(key.value, value.value)];
      i := i + 1;
    }
    if i != count {
      return None;
    }
    ParsePropsCases(source[..], currentPosition, 0, configMap);
    return Some((configMap, currentPosition));
  }

  lemma AllDecodings(b: seq<byte>)
    requires |b| <= INT32_MAX
    ensures forall m :: Read(b) == Returns(Some(m)) <==> Valid(m) && Encode(m) == b
  {
    forall m ensures Read(b) == Returns(Some(m)) <==> Valid(m) && Encode(m) == b {
      DecodeIffEncode(b, m);
    }
  }

  /** The outcome of parse_int32_t; OutsideArray is a read of bytes that are not in the array. */
  datatype IntOutcome = OutsideArray | Refused | Value(value: int32)

  /** parse_int32_t: fails when its test finds that the four bytes would go past the end. */
  method ParseInt32(source: array<byte>, position: int32) returns (r: IntOutcome)
    requires 0 <= position <= source.Length <= INT32_MAX
    ensures r == Refused <==> PastEnd(position, source.Length)
    ensures r == OutsideArray <==> position > INT32_MAX - 4
    ensures position <= INT32_MAX - 4 ==>
              r == if position + 4 > source.Length then Refused else Value(ReadInt32(source[..], position))
  {
    PastEndIff(position, source.Length);
    if AddInt32(position, 4) > source.Length {
      return Refused;
    }
    if position + 4 > source.Length {
      return OutsideArray;
    }
    return Value(AsSigned(Word(source[position], source[position + 1], source[position + 2], source[position + 3])));
  }

  /** parse_null_terminated_const_char: fails when no NUL is left. */
  method ParseString(source: array<byte>, position: nat) returns (value: Option<CString>)
    requires position <= source.Length
    ensures value.None? <==> FirstNul(source[..], position) == -1
    ensures value.Some? ==>
              var r := FirstNul(source[..], position);
              |value.value| == r - position && value.value == source[position..r]
  {
    var whereIsNull := FirstNul(source[..], position);
    if whereIsNull == -1 {
      return None;
    }
    return Some(source[position..whereIsNull]);
  }
}
