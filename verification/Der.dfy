/**
 The hand-written DER encoder of the message to sign (token/driver/asn1_fast.go), with an
 independent parser. Lengths follow sections 8.1.3 and 10.1 of ITU-T X.690.
 */
module Der {
  import opened Prelude

  const INTEGER: byte := 0x02
  const OCTET_STRING: byte := 0x04
  const SEQUENCE: byte := 0x30

  const ISSUE := 1
  const TRANSFER := 2

  /** The first length that no longer fits in four length octets. */
  const LENGTH_LIMIT := 0x1_0000_0000

  /** A protobuf action type (any 32-bit enum value may be present) with the serialized action. */
  datatype TypedAction = TypedAction(kind: int, raw: Bytes)

  // ---------------------------------------------------------------------------------------
  // Length octets

  function EncodedLength(length: nat): nat {
    if length < 128 then 1
    else if length < 256 then 2
    else if length < 65536 then 3
    else if length < 16777216 then 4
    else 5
  }

  /** The `count` low-order octets of a number, most significant first. */
  function Octets(n: nat, count: nat): (octets: Bytes)
    ensures |octets| == count
  {
    if count == 0 then [] else Octets(n / 256, count - 1) + [n % 256]
  }

  /** Short form below 128, otherwise the number of length octets followed by the octets. */
  function LengthOctets(length: nat): (octets: Bytes)
    ensures |octets| == EncodedLength(length)
  {
    if length < 128 then [length]
    else var count := EncodedLength(length) - 1; [128 + count] + Octets(length, count)
  }

  function Power256(n: nat): nat {
    if n == 0 then 1 else 256 * Power256(n - 1)
  }

  function BigEndian(octets: Bytes): nat {
    if octets == [] then 0
    else 256 * BigEndian(octets[..|octets| - 1]) + octets[|octets| - 1]
  }

  /** Section 8.1.3 of X.690: any definite form, as (length, number of octets read). */
  function BerLength(input: Bytes): Option<(nat, nat)> {
    if input == [] then None
    else if input[0] < 128 then Some((input[0], 1))
    else
      var count := input[0] - 128;
      if count == 0 || count == 127 || |input| < 1 + count then None
      else Some((BigEndian(input[1..1 + count]), 1 + count))
  }

  lemma {:induction false} BigEndianBound(octets: Bytes)
    ensures BigEndian(octets) < Power256(|octets|)
  {
    if octets != [] {
      BigEndianBound(octets[..|octets| - 1]);
    }
  }

  lemma {:induction false} SmallPowers()
    ensures Power256(1) == 256
    ensures Power256(2) == 65536
    ensures Power256(3) == 16777216
    ensures Power256(4) == LENGTH_LIMIT
  {
    assert Power256(2) == 256 * Power256(1);
    assert Power256(3) == 256 * Power256(2);
  }

  lemma {:induction false} OctetsRoundTrip(n: nat, count: nat)
    requires n < Power256(count)
    ensures BigEndian(Octets(n, count)) == n
  {
    if count > 0 {
      OctetsRoundTrip(n / 256, count - 1);
      assert Octets(n, count)[..count - 1] == Octets(n / 256, count - 1);
    }
  }

  lemma {:induction false} BigEndianRoundTrip(octets: Bytes)
    ensures Octets(BigEndian(octets), |octets|) == octets
  {
    if octets != [] {
      BigEndianRoundTrip(octets[..|octets| - 1]);
    }
  }

  lemma {:induction false} OctetsTruncate(n: nat, count: nat)
    ensures Power256(count) > 0
    ensures Octets(n, count) == Octets(n % Power256(count), count)
  {
    if count > 0 {
      OctetsTruncate(n / 256, count - 1);
      ModOfDiv(n, Power256(count - 1));
    }
  }

  lemma {:induction false} ModOfDiv(n: nat, p: nat)
    requires p > 0
    ensures n % (256 * p) / 256 == n / 256 % p
    ensures n % (256 * p) % 256 == n % 256
  {
    var high, low := n / 256, n % 256;
    var q, r := high / p, high % p;
    assert n == 256 * p * q + (256 * r + low) by {
      assert high == p * q + r;
      assert 256 * (p * q) == 256 * p * q;
    }
    assert 256 * r + low < 256 * p;
    ModUnique(n, 256 * p, q, 256 * r + low);
  }

  lemma {:induction false} ModUnique(n: int, m: int, q: int, r: int)
    requires 0 <= r < m
    requires n == m * q + r
    ensures n / m == q && n % m == r
  {
    var d := q - n / m;
    assert m * d == n % m - r;
    MultipleGap(m, d);
  }

  lemma {:induction false} MultipleGap(m: int, d: int)
    requires 0 < m
    ensures d >= 1 ==> m * d >= m
    ensures d <= -1 ==> m * d <= -m
  {
  }

  /** `appendLength`, branch by branch; the last branch truncates to an unsigned 32-bit word. */
  method AppendLength(buffer: Bytes, length: nat) returns (result: Bytes)
    ensures result == buffer + LengthOctets(length)
  {
    if length < 128 {
      return buffer + [length];
    }
    if length < 256 {
      MediumLength(length);
      return buffer + [0x81, length];
    }
    if length < 65536 {
      MediumLength(length);
      return buffer + [0x82, length / 256, length % 256];
    }
    if length < 16777216 {
      LongLength(length);
      return buffer + [0x83, length / 65536, length / 256 % 256, length % 256];
    }
    var word := length % LENGTH_LIMIT;
    TruncatedLength(length);
    return buffer + [0x84, word / 16777216, word / 65536 % 256, word / 256 % 256, word % 256];
  }

  lemma {:induction false} MediumLength(length: nat)
    requires 128 <= length < 65536
    ensures length < 256 ==> LengthOctets(length) == [0x81, length]
    ensures 256 <= length ==> LengthOctets(length) == [0x82, length / 256, length % 256]
  {
    TwoOctets(length);
  }

  lemma {:induction false} LongLength(length: nat)
    requires 65536 <= length < 16777216
    ensures LengthOctets(length) == [0x83, length / 65536, length / 256 % 256, length % 256]
  {
    FourOctets(length);
  }

  lemma {:induction false} TruncatedLength(length: nat)
    requires 16777216 <= length
    ensures var word := length % LENGTH_LIMIT;
            LengthOctets(length)
            == [0x84, word / 16777216, word / 65536 % 256, word / 256 % 256, word % 256]
  {
    SmallPowers();
    OctetsTruncate(length, 4);
    WordOctets(length % LENGTH_LIMIT);
  }

  lemma {:induction false} WordOctets(word: nat)
    requires word < LENGTH_LIMIT
    ensures Octets(word, 4) == [word / 16777216, word / 65536 % 256, word / 256 % 256, word % 256]
  {
    FourOctets(word);
    assert word / 16777216 < 256;
  }

  lemma {:induction false} TwoOctets(n: nat)
    ensures Octets(n, 1) == [n % 256]
    ensures Octets(n, 2) == [n / 256 % 256, n % 256]
  {
    assert Octets(n / 256, 1) == Octets(n / 256 / 256, 0) + [n / 256 % 256];
  }

  lemma {:induction false} FourOctets(n: nat)
    ensures Octets(n, 3) == [n / 65536 % 256, n / 256 % 256, n % 256]
    ensures Octets(n, 4) == [n / 16777216 % 256, n / 65536 % 256, n / 256 % 256, n % 256]
  {
    TwoOctets(n / 256);
    TwoOctets(n / 65536);
    assert n / 256 / 256 == n / 65536 && n / 65536 / 256 == n / 16777216;
    assert Octets(n, 3) == Octets(n / 256, 2) + [n % 256];
    assert Octets(n / 256, 3) == Octets(n / 65536, 2) + [n / 256 % 256];
    assert Octets(n, 4) == Octets(n / 256, 3) + [n % 256];
  }

  /** A decoder reads back the length exactly when it is below 2^32. */
  lemma {:induction false} LengthRoundTrip(length: nat, rest: Bytes)
    ensures BerLength(LengthOctets(length) + rest) == Some((length, EncodedLength(length)))
            <==> length < LENGTH_LIMIT
  {
    if 128 <= length {
      var count := EncodedLength(length) - 1;
      var input := LengthOctets(length) + rest;
      assert input[1..1 + count] == Octets(length, count);
      SmallPowers();
      if length < LENGTH_LIMIT {
        OctetsRoundTrip(length, count);
      } else {
        BigEndianBound(Octets(length, 4));
      }
    }
  }

  /** Section 10.1 of X.690: no definite form of the same length is shorter. */
  lemma {:induction false} LengthIsShortest(length: nat, input: Bytes, used: nat)
    requires length < LENGTH_LIMIT
    requires BerLength(input) == Some((length, used))
    ensures |LengthOctets(length)| <= used
  {
    SmallPowers();
    if 128 <= input[0] {
      BigEndianBound(input[1..used]);
    }
  }

  // ---------------------------------------------------------------------------------------
  // Tag, length, content

  function Tlv(tag: byte, content: Bytes): (element: Bytes)
    ensures |element| == 1 + EncodedLength(|content|) + |content|
  {
    [tag] + LengthOctets(|content|) + content
  }

  /** Reads one element with the given tag whose length is in the shortest form. */
  function ParseTlv(tag: byte, input: Bytes): Option<(Bytes, Bytes)> {
    if input == [] || input[0] != tag then None
    else match BerLength(input[1..])
         case None => None
         case Some((length, used)) =>
           if used != EncodedLength(length) || |input| < 1 + used + length then None
           else Some((input[1 + used..][..length], input[1 + used..][length..]))
  }

  lemma {:induction false} TlvRoundTrip(tag: byte, content: Bytes, rest: Bytes)
    requires |content| < LENGTH_LIMIT
    ensures ParseTlv(tag, Tlv(tag, content) + rest) == Some((content, rest))
  {
    var input := Tlv(tag, content) + rest;
    assert input[1..] == LengthOctets(|content|) + (content + rest);
    LengthRoundTrip(|content|, content + rest);
    assert input[1 + EncodedLength(|content|)..] == content + rest;
  }

  /** The length octets of a shortest-form length are determined by the length. */
  lemma {:induction false} ShortestLengthIsUnique(input: Bytes, length: nat)
    requires BerLength(input) == Some((length, EncodedLength(length)))
    ensures length < LENGTH_LIMIT
    ensures EncodedLength(length) <= |input|
    ensures input[..EncodedLength(length)] == LengthOctets(length)
  {
    if 128 <= input[0] {
      var digits := input[1..EncodedLength(length)];
      SmallPowers();
      BigEndianBound(digits);
      BigEndianRoundTrip(digits);
    }
  }

  lemma {:induction false} TlvSound(tag: byte, input: Bytes, content: Bytes, rest: Bytes)
    requires ParseTlv(tag, input) == Some((content, rest))
    ensures |content| < LENGTH_LIMIT
    ensures input == Tlv(tag, content) + rest
  {
    var tail := input[1..];
    var (length, used) := BerLength(tail).value;
    ShortestLengthIsUnique(tail, length);
    assert input[1 + used..] == content + rest;
    Reassemble(input, tail[..used], content, rest);
  }

  lemma {:induction false} Reassemble(input: Bytes, octets: Bytes, content: Bytes, rest: Bytes)
    requires input != []
    requires octets <= input[1..]
    requires input[1 + |octets|..] == content + rest
    ensures input == [input[0]] + octets + content + rest
  {
    assert input == [input[0]] + octets + input[1 + |octets|..];
  }

  lemma {:induction false} Assoc(a: Bytes, b: Bytes, c: Bytes)
    ensures a + b + c == a + (b + c)
  {
  }

  // ---------------------------------------------------------------------------------------
  // The signing message

  /** Anything that is not TRANSFER is written as ISSUE. */
  function TypeOctet(kind: int): byte {
    if kind == TRANSFER then 1 else 0
  }

  function ActionContent(action: TypedAction): Bytes {
    Tlv(INTEGER, [TypeOctet(action.kind)]) + Tlv(OCTET_STRING, action.raw)
  }

  function Flatten(parts: seq<Bytes>): Bytes {
    if parts == [] then [] else Flatten(parts[..|parts| - 1]) + parts[|parts| - 1]
  }

  function ActionElements(actions: seq<TypedAction>): seq<Bytes> {
    seq(|actions|, i requires 0 <= i < |actions| => Tlv(SEQUENCE, ActionContent(actions[i])))
  }

  function ActionsContent(actions: seq<TypedAction>): Bytes {
    Flatten(ActionElements(actions))
  }

  function RequestOctets(actions: seq<TypedAction>): Bytes {
    Tlv(SEQUENCE, Tlv(SEQUENCE, ActionsContent(actions)))
  }

  function MessageContent(request: Bytes, anchor: Bytes): Bytes {
    Tlv(OCTET_STRING, request) + Tlv(OCTET_STRING, anchor)
  }

  /** The bytes every signer signs. */
  function MessageOctets(actions: seq<TypedAction>, anchor: Bytes): Bytes {
    Tlv(SEQUENCE, MessageContent(RequestOctets(actions), anchor))
  }

  /** A tag and a length, appended as every element of the message starts. */
  method AppendHeader(buffer: Bytes, tag: byte, length: nat) returns (result: Bytes)
    ensures result == buffer + ([tag] + LengthOctets(length))
  {
    result := AppendLength(buffer + [tag], length);
  }

  method AppendOctetString(buffer: Bytes, data: Bytes) returns (result: Bytes)
    ensures result == buffer + Tlv(OCTET_STRING, data)
  {
    result := AppendHeader(buffer, OCTET_STRING, |data|);
    Assoc(buffer, [OCTET_STRING] + LengthOctets(|data|), data);
    result := result + data;
  }

  /** One iteration of the byte pass. */
  method AppendAction(buffer: Bytes, action: TypedAction) returns (result: Bytes)
    ensures result == buffer + Tlv(SEQUENCE, ActionContent(action))
  {
    var actionTypeInt: byte := 0;
    match action.kind {
      case 1 => actionTypeInt := 0;
      case 2 => actionTypeInt := 1;
      case _ => actionTypeInt := 0;
    }
    var dataEncoding := 1 + EncodedLength(|action.raw|) + |action.raw|;
    var actionContentLen := 3 + dataEncoding;
    ghost var integer := Tlv(INTEGER, [actionTypeInt]);
    assert integer == [INTEGER, 0x01, actionTypeInt];
    assert actionContentLen == |ActionContent(action)|;

    result := AppendHeader(buffer, SEQUENCE, actionContentLen);
    ghost var header := result;
    result := result + [INTEGER, 0x01, actionTypeInt];
    result := AppendOctetString(result, action.raw);
    Assoc(header, integer, Tlv(OCTET_STRING, action.raw));
    Assoc(buffer, [SEQUENCE] + LengthOctets(actionContentLen), ActionContent(action));
  }

  /** The size of the actions, as the size pass adds it up. */
  method ActionsSize(actions: seq<TypedAction>) returns (actionsContentLen: nat)
    ensures actionsContentLen == |ActionsContent(actions)|
  {
    actionsContentLen := 0;
    ghost var elements := ActionElements(actions);
    for i := 0 to |actions|
      invariant actionsContentLen == |Flatten(elements[..i])|
    {
      var dataLen := |actions[i].raw|;
      var dataEncoding := 1 + EncodedLength(dataLen) + dataLen;
      var actionContentLen := 3 + dataEncoding;
      assert actionContentLen == |ActionContent(actions[i])|;
      actionsContentLen := actionsContentLen + (1 + EncodedLength(actionContentLen) + actionContentLen);
      assert elements[..i + 1][..i] == elements[..i];
    }
    assert elements[..|actions|] == elements;
  }

  /** The byte pass over the actions. */
  method AppendActions(buffer: Bytes, actions: seq<TypedAction>) returns (result: Bytes)
    ensures result == buffer + ActionsContent(actions)
  {
    result := buffer;
    ghost var elements := ActionElements(actions);
    for i := 0 to |actions|
      invariant result == buffer + Flatten(elements[..i])
    {
      result := AppendAction(result, actions[i]);
      assert elements[..i + 1][..i] == elements[..i];
      Assoc(buffer, Flatten(elements[..i]), elements[i]);
    }
    assert elements[..|actions|] == elements;
  }

  /** `fastMarshalTokenRequestForSigning`: a size pass, then a byte pass over the same actions. */
  method MarshalTokenRequest(actions: seq<TypedAction>) returns (result: Bytes, totalSize: nat)
    ensures result == RequestOctets(actions)
    ensures totalSize == |result|
  {
    var actionsContentLen := ActionsSize(actions);
    var actionsTotal := 1 + EncodedLength(actionsContentLen) + actionsContentLen;
    totalSize := 1 + EncodedLength(actionsTotal) + actionsTotal;

    result := AppendHeader([], SEQUENCE, actionsTotal);
    ghost var outer := result;
    result := AppendHeader(result, SEQUENCE, actionsContentLen);
    result := AppendActions(result, actions);
    ghost var content := ActionsContent(actions);
    Assoc(outer, [SEQUENCE] + LengthOctets(|content|), content);
    assert result == outer + Tlv(SEQUENCE, content);
  }

  /** `fastMarshalSignatureMessageV1`. */
  method MarshalSignatureMessage(request: Bytes, anchor: Bytes) returns (result: Bytes, totalSize: nat)
    ensures result == Tlv(SEQUENCE, MessageContent(request, anchor))
    ensures totalSize == |result|
  {
    var contentLen := 1 + EncodedLength(|request|) + |request| + 1 + EncodedLength(|anchor|) + |anchor|;
    totalSize := 1 + EncodedLength(contentLen) + contentLen;
    assert contentLen == |MessageContent(request, anchor)|;

    result := AppendHeader([], SEQUENCE, contentLen);
    ghost var header := result;
    result := AppendOctetString(result, request);
    result := AppendOctetString(result, anchor);
    Assoc(header, Tlv(OCTET_STRING, request), Tlv(OCTET_STRING, anchor));
  }

  // ---------------------------------------------------------------------------------------
  // An independent parser

  function ParseKind(content: Bytes): Option<int> {
    if content == [0] then Some(ISSUE)
    else if content == [1] then Some(TRANSFER)
    else None
  }

  function ParseActionContent(content: Bytes): Option<TypedAction> {
    match ParseTlv(INTEGER, content)
    case None => None
    case Some((integer, rest)) =>
      match (ParseKind(integer), ParseTlv(OCTET_STRING, rest))
      case (Some(kind), Some((raw, trailing))) =>
        if trailing == [] then Some(TypedAction(kind, raw)) else None
      case _ => None
  }

  function ParseActions(content: Bytes): Option<seq<TypedAction>>
    decreases |content|
  {
    if content == [] then Some([])
    else match ParseTlv(SEQUENCE, content)
         case None => None
         case Some((first, rest)) =>
           TlvSound(SEQUENCE, content, first, rest);
           match (ParseActionContent(first), ParseActions(rest))
           case (Some(action), Some(actions)) => Some([action] + actions)
           case _ => None
  }

  /** The content of a single element that spans the whole input. */
  function ParseWhole(tag: byte, input: Bytes): Option<Bytes> {
    match ParseTlv(tag, input)
    case Some((content, rest)) => if rest == [] then Some(content) else None
    case None => None
  }

  function ParseRequest(input: Bytes): Option<seq<TypedAction>> {
    match ParseWhole(SEQUENCE, input)
    case None => None
    case Some(outer) =>
      match ParseWhole(SEQUENCE, outer)
      case None => None
      case Some(content) => ParseActions(content)
  }

  function ParseMessage(input: Bytes): Option<(seq<TypedAction>, Bytes)> {
    match ParseWhole(SEQUENCE, input)
    case None => None
    case Some(content) =>
      match ParseTlv(OCTET_STRING, content)
      case None => None
      case Some((request, rest)) =>
        match (ParseRequest(request), ParseWhole(OCTET_STRING, rest))
        case (Some(actions), Some(anchor)) => Some((actions, anchor))
        case _ => None
  }

  /** What the encoding keeps of an action type. */
  function Canonical(action: TypedAction): TypedAction {
    action.(kind := if action.kind == TRANSFER then TRANSFER else ISSUE)
  }

  function CanonicalAll(actions: seq<TypedAction>): seq<TypedAction> {
    seq(|actions|, i requires 0 <= i < |actions| => Canonical(actions[i]))
  }

  /** The total content of the message is below 2^32, hence every length field inside it. */
  ghost predicate Encodable(actions: seq<TypedAction>, anchor: Bytes) {
    |MessageContent(RequestOctets(actions), anchor)| < LENGTH_LIMIT
  }

  lemma {:induction false} ActionContentRoundTrip(action: TypedAction)
    requires |action.raw| < LENGTH_LIMIT
    ensures ParseActionContent(ActionContent(action)) == Some(Canonical(action))
  {
    TlvRoundTrip(INTEGER, [TypeOctet(action.kind)], Tlv(OCTET_STRING, action.raw));
    TlvRoundTrip(OCTET_STRING, action.raw, []);
    assert Tlv(OCTET_STRING, action.raw) + [] == Tlv(OCTET_STRING, action.raw);
  }

  lemma {:induction false} FlattenCons(first: Bytes, rest: seq<Bytes>)
    ensures Flatten([first] + rest) == first + Flatten(rest)
  {
    var all := [first] + rest;
    if rest == [] {
      assert all[..0] == [];
    } else {
      FlattenCons(first, rest[..|rest| - 1]);
      assert all[..|all| - 1] == [first] + rest[..|rest| - 1];
    }
  }

  lemma {:induction false} ActionsContentCons(action: TypedAction, rest: seq<TypedAction>)
    ensures ActionsContent([action] + rest) == Tlv(SEQUENCE, ActionContent(action)) + ActionsContent(rest)
  {
    var first := Tlv(SEQUENCE, ActionContent(action));
    assert ActionElements([action] + rest) == [first] + ActionElements(rest);
    FlattenCons(first, ActionElements(rest));
  }

  /** Whatever follows, the octets read back as one action. */
  ghost predicate ReadsAs(octets: Bytes, action: TypedAction) {
    forall rest {:trigger octets + rest} :: ParseActions(rest).Some? ==>
      ParseActions(octets + rest) == Some([action] + ParseActions(rest).value)
  }

  lemma {:induction false} ActionElementReads(action: TypedAction)
    requires |ActionContent(action)| < LENGTH_LIMIT
    ensures ReadsAs(Tlv(SEQUENCE, ActionContent(action)), Canonical(action))
  {
    var content := ActionContent(action);
    ActionContentRoundTrip(action);
    forall rest | ParseActions(rest).Some?
      ensures ParseActions(Tlv(SEQUENCE, content) + rest)
              == Some([Canonical(action)] + ParseActions(rest).value)
    {
      TlvRoundTrip(SEQUENCE, content, rest);
    }
  }

  lemma {:induction false} ReadsAsBefore(octets: Bytes, action: TypedAction, rest: Bytes, actions: seq<TypedAction>)
    requires ReadsAs(octets, action)
    requires ParseActions(rest) == Some(actions)
    ensures ParseActions(octets + rest) == Some([action] + actions)
  {
  }

  lemma {:induction false} ParseFlattenedCons(first: Bytes, action: TypedAction, rest: seq<Bytes>,
                                              actions: seq<TypedAction>)
    requires ReadsAs(first, action) && ParseActions(Flatten(rest)) == Some(actions)
    ensures ParseActions(Flatten([first] + rest)) == Some([action] + actions)
  {
    FlattenCons(first, rest);
    ReadsAsBefore(first, action, Flatten(rest), actions);
  }

  lemma {:induction false} ParseFlattened(elements: seq<Bytes>, actions: seq<TypedAction>)
    requires |elements| == |actions|
    requires forall i :: 0 <= i < |elements| ==> ReadsAs(elements[i], actions[i])
    ensures ParseActions(Flatten(elements)) == Some(actions)
  {
    if elements != [] {
      ParseFlattened(elements[1..], actions[1..]);
      ParseFlattenedCons(elements[0], actions[0], elements[1..], actions[1..]);
      assert elements == [elements[0]] + elements[1..];
      assert actions == [actions[0]] + actions[1..];
    }
  }

  lemma {:induction false} FlattenPart(parts: seq<Bytes>, i: nat)
    requires i < |parts|
    ensures |parts[i]| <= |Flatten(parts)|
  {
    if i < |parts| - 1 {
      FlattenPart(parts[..|parts| - 1], i);
    }
  }

  lemma {:induction false} ActionsRoundTrip(actions: seq<TypedAction>)
    requires |ActionsContent(actions)| < LENGTH_LIMIT
    ensures ParseActions(ActionsContent(actions)) == Some(CanonicalAll(actions))
  {
    var elements := ActionElements(actions);
    forall i | 0 <= i < |actions|
      ensures ReadsAs(elements[i], Canonical(actions[i]))
    {
      FlattenPart(elements, i);
      ActionElementReads(actions[i]);
    }
    ParseFlattened(elements, CanonicalAll(actions));
  }

  lemma {:induction false} WholeRoundTrip(tag: byte, content: Bytes)
    requires |content| < LENGTH_LIMIT
    ensures ParseWhole(tag, Tlv(tag, content)) == Some(content)
  {
    TlvRoundTrip(tag, content, []);
    assert Tlv(tag, content) + [] == Tlv(tag, content);
  }

  /** The parser recovers the ordered typed actions and the anchor from every signing message. */
  lemma {:induction false} MessageRoundTrip(actions: seq<TypedAction>, anchor: Bytes)
    requires Encodable(actions, anchor)
    ensures ParseMessage(MessageOctets(actions, anchor)) == Some((CanonicalAll(actions), anchor))
  {
    var request := RequestOctets(actions);
    WholeRoundTrip(SEQUENCE, MessageContent(request, anchor));
    TlvRoundTrip(OCTET_STRING, request, Tlv(OCTET_STRING, anchor));
    WholeRoundTrip(OCTET_STRING, anchor);
    WholeRoundTrip(SEQUENCE, Tlv(SEQUENCE, ActionsContent(actions)));
    WholeRoundTrip(SEQUENCE, ActionsContent(actions));
    ActionsRoundTrip(actions);
  }

  lemma {:induction false} ShortTlv(tag: byte, content: Bytes)
    requires |content| < 128
    ensures Tlv(tag, content) == [tag, |content|] + content
  {
  }

  lemma {:induction false} ShortAction(raw: Bytes, kind: int)
    requires |raw| + 5 < 128
    ensures ActionsContent([TypedAction(kind, raw)])
         == [0x30, |raw| + 5, 0x02, 0x01, if kind == 2 then 1 else 0, 0x04, |raw|] + raw
  {
    var action := TypedAction(kind, raw);
    ShortTlv(INTEGER, [TypeOctet(kind)]);
    ShortTlv(OCTET_STRING, raw);
    var content := [0x02, 0x01, TypeOctet(kind), 0x04, |raw|] + raw;
    assert ActionContent(action) == content;
    ShortTlv(SEQUENCE, content);
    assert ActionElements([action]) == [Tlv(SEQUENCE, content)] && [Tlv(SEQUENCE, content)][..0] == [];
    assert Flatten([Tlv(SEQUENCE, content)]) == [] + Tlv(SEQUENCE, content) == Tlv(SEQUENCE, content);
  }

  lemma {:induction false} ShortRequest(raw: Bytes, kind: int)
    requires |raw| + 9 < 128
    ensures RequestOctets([TypedAction(kind, raw)])
         == [0x30, |raw| + 9, 0x30, |raw| + 7,
             0x30, |raw| + 5, 0x02, 0x01, if kind == 2 then 1 else 0, 0x04, |raw|] + raw
  {
    ShortAction(raw, kind);
    var element := ActionsContent([TypedAction(kind, raw)]);
    ShortTlv(SEQUENCE, element);
    ShortTlv(SEQUENCE, [0x30, |element|] + element);
  }

  /** The message of one short action and a short anchor, octet by octet. */
  lemma {:induction false} ShortMessage(raw: Bytes, kind: int, anchor: Bytes)
    requires |raw| + |anchor| + 15 < 128
    ensures MessageOctets([TypedAction(kind, raw)], anchor)
         == [0x30, |raw| + |anchor| + 15, 0x04, |raw| + 11,
             0x30, |raw| + 9, 0x30, |raw| + 7, 0x30, |raw| + 5, 0x02, 0x01, if kind == 2 then 1 else 0, 0x04, |raw|]
            + raw + [0x04, |anchor|] + anchor
  {
    ShortRequest(raw, kind);
    var request := RequestOctets([TypedAction(kind, raw)]);
    ShortTlv(OCTET_STRING, request);
    ShortTlv(OCTET_STRING, anchor);
    ShortTlv(SEQUENCE, MessageContent(request, anchor));
  }

  /** Two messages coincide exactly when their actions agree up to the written type and the anchors agree. */
  lemma {:induction false} MessageInjective(actions: seq<TypedAction>, anchor: Bytes, actions': seq<TypedAction>,
                                            anchor': Bytes)
    requires Encodable(actions, anchor) && Encodable(actions', anchor')
    ensures MessageOctets(actions, anchor) == MessageOctets(actions', anchor')
            <==> CanonicalAll(actions) == CanonicalAll(actions') && anchor == anchor'
  {
    MessageRoundTrip(actions, anchor);
    MessageRoundTrip(actions', anchor');
    if CanonicalAll(actions) == CanonicalAll(actions') {
      ActionsContentCanonical(actions);
      ActionsContentCanonical(actions');
    }
  }

  lemma {:induction false} ActionsContentCanonical(actions: seq<TypedAction>)
    ensures ActionsContent(CanonicalAll(actions)) == ActionsContent(actions)
  {
    assert ActionElements(CanonicalAll(actions)) == ActionElements(actions);
  }

  ghost predicate KnownTypes(actions: seq<TypedAction>) {
    forall i :: 0 <= i < |actions| ==> actions[i].kind == ISSUE || actions[i].kind == TRANSFER
  }

  /** With decodable types, different (actions, anchor) pairs never share a signing message. */
  lemma {:induction false} MessageCollisionFree(actions: seq<TypedAction>, anchor: Bytes, actions': seq<TypedAction>,
                                                anchor': Bytes)
    requires Encodable(actions, anchor) && Encodable(actions', anchor')
    requires KnownTypes(actions) && KnownTypes(actions')
    requires MessageOctets(actions, anchor) == MessageOctets(actions', anchor')
    ensures actions == actions' && anchor == anchor'
  {
    MessageInjective(actions, anchor, actions', anchor');
    assert CanonicalAll(actions) == actions;
    assert CanonicalAll(actions') == actions';
  }

  /** The fallback branch is the one way two encodable requests collide. */
  lemma {:induction false} UnknownTypeCollides(raw: Bytes, anchor: Bytes)
    ensures MessageOctets([TypedAction(0, raw)], anchor) == MessageOctets([TypedAction(ISSUE, raw)], anchor)
  {
    ActionsContentCanonical([TypedAction(0, raw)]);
    assert CanonicalAll([TypedAction(0, raw)]) == [TypedAction(ISSUE, raw)];
  }

  // ---------------------------------------------------------------------------------------
  // The parser accepts nothing but encodings

  lemma {:induction false} WholeSound(tag: byte, input: Bytes, content: Bytes)
    requires ParseWhole(tag, input) == Some(content)
    ensures |content| < LENGTH_LIMIT && input == Tlv(tag, content)
  {
    TlvSound(tag, input, content, []);
    assert Tlv(tag, content) + [] == Tlv(tag, content);
  }

  lemma {:induction false} ActionContentSound(content: Bytes, action: TypedAction)
    requires ParseActionContent(content) == Some(action)
    ensures content == ActionContent(action)
    ensures action.kind == ISSUE || action.kind == TRANSFER
  {
    var (integer, rest) := ParseTlv(INTEGER, content).value;
    TlvSound(INTEGER, content, integer, rest);
    TlvSound(OCTET_STRING, rest, action.raw, []);
    assert Tlv(OCTET_STRING, action.raw) + [] == Tlv(OCTET_STRING, action.raw);
  }

  lemma {:induction false} ActionsSound(content: Bytes, actions: seq<TypedAction>)
    requires ParseActions(content) == Some(actions)
    ensures content == ActionsContent(actions)
    ensures KnownTypes(actions)
    decreases |content|
  {
    if content != [] {
      var (first, rest) := ParseTlv(SEQUENCE, content).value;
      TlvSound(SEQUENCE, content, first, rest);
      ActionContentSound(first, actions[0]);
      assert actions[1..] == ParseActions(rest).value;
      ActionsSound(rest, actions[1..]);
      ActionsContentCons(actions[0], actions[1..]);
      assert actions == [actions[0]] + actions[1..];
    }
  }

  /** Parsing and encoding are inverse: a message the parser accepts is the encoding of what it reads. */
  lemma {:induction false} MessageSound(input: Bytes, actions: seq<TypedAction>, anchor: Bytes)
    requires ParseMessage(input) == Some((actions, anchor))
    ensures input == MessageOctets(actions, anchor)
    ensures KnownTypes(actions) && Encodable(actions, anchor)
  {
    var content := ParseWhole(SEQUENCE, input).value;
    WholeSound(SEQUENCE, input, content);
    var (request, rest) := ParseTlv(OCTET_STRING, content).value;
    TlvSound(OCTET_STRING, content, request, rest);
    WholeSound(OCTET_STRING, rest, anchor);
    var outer := ParseWhole(SEQUENCE, request).value;
    WholeSound(SEQUENCE, request, outer);
    WholeSound(SEQUENCE, outer, ParseWhole(SEQUENCE, outer).value);
    ActionsSound(ParseWhole(SEQUENCE, outer).value, actions);
  }
}
