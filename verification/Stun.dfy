/**
 * The STUN message codec: the header of section 11.1 and the attributes of section 11.2 of
 * RFC 3489, as the program prints and parses them.
 */
module Stun {
  import opened Bytes

  type U16 = n: int | 0 <= n < 0x1_0000
  type U32 = n: int | 0 <= n < 0x1_0000_0000

  type octets = seq<U8>

  const HEADER := 20                // sizeof(StunMsgHdr)
  const MAX_STRING := 256
  const MAX_UNKNOWN := 8
  const MAX_MESSAGE := 2048
  const IPV4_FAMILY: U8 := 1

  const MAPPED_ADDRESS: U16 := 1
  const RESPONSE_ADDRESS: U16 := 2
  const CHANGE_REQUEST: U16 := 3
  const SOURCE_ADDRESS: U16 := 4
  const CHANGED_ADDRESS: U16 := 5
  const USERNAME: U16 := 6
  const PASSWORD: U16 := 7
  const MESSAGE_INTEGRITY: U16 := 8
  const ERROR_CODE: U16 := 9
  const UNKNOWN_ATTRIBUTE: U16 := 10
  const REFLECTED_FROM: U16 := 11

  datatype Address = Address(pad: U8, family: U8, port: U16, addr: U32)
  datatype ErrorInfo = ErrorInfo(pad: U16, errorClass: U8, number: U8, reason: octets)

  /** StunMessage: None where the has-flag is off. */
  datatype Message = Message(
    msgType: U16, msgLength: U16, id: octets,
    mappedAddress: Option<Address>,
    responseAddress: Option<Address>,
    changeRequest: Option<U32>,
    sourceAddress: Option<Address>,
    changedAddress: Option<Address>,
    username: Option<octets>,
    password: Option<octets>,
    messageIntegrity: Option<octets>,
    errorCode: Option<ErrorInfo>,
    unknownAttributes: Option<seq<U16>>,
    reflectedFrom: Option<Address>)

  /** A message as memset and the header leave it. */
  function Bare(msgType: U16, msgLength: U16, id: octets): Message {
    Message(msgType, msgLength, id, None, None, None, None, None, None, None, None, None, None, None)
  }

  // ----- numbers in network order

  function Put16(n: U16): (r: octets)
    ensures |r| == 2
  {
    [n / 256, n % 256]
  }

  function Put32(n: U32): (r: octets)
    ensures |r| == 4
  {
    [n / 0x100_0000, n / 0x1_0000 % 256, n / 256 % 256, n % 256]
  }

  function Get16(s: octets, i: nat): U16
    requires i + 2 <= |s|
  {
    s[i] as int * 256 + s[i + 1]
  }

  function Get32(s: octets, i: nat): U32
    requires i + 4 <= |s|
  {
    s[i] as int * 0x100_0000 + s[i + 1] as int * 0x1_0000 + s[i + 2] as int * 256 + s[i + 3]
  }

  lemma PutGet16(a: octets, n: U16, b: octets)
    ensures Get16(a + Put16(n) + b, |a|) == n
  {
  }

  lemma Bytes32(n: U32)
    ensures n == n / 0x100_0000 * 0x100_0000 + n / 0x1_0000 % 256 * 0x1_0000 + n / 256 % 256 * 256 + n % 256
  {
  }

  lemma PutGet32(a: octets, n: U32, b: octets)
    ensures Get32(a + Put32(n) + b, |a|) == n
  {
    Bytes32(n);
    var s, i, p := a + Put32(n) + b, |a|, Put32(n);
    assert s[i] == p[0] && s[i + 1] == p[1] && s[i + 2] == p[2] && s[i + 3] == p[3];
  }

  // ----- parsing

  function ParseAddress(body: octets): Option<Address> {
    if |body| != 8 || body[1] != IPV4_FAMILY then None
    else Some(Address(body[0], body[1], Get16(body, 2), Get32(body, 4)))
  }

  function ParseChangeRequest(body: octets): Option<U32> {
    if |body| != 4 then None else Some(Get32(body, 0))
  }

  function ParseString(body: octets): Option<octets> {
    if |body| >= MAX_STRING || |body| % 4 != 0 then None else Some(body)
  }

  function ParseIntegrity(body: octets): Option<octets> {
    if |body| != 20 then None else Some(body)
  }

  /** The sizes of an ErrorCode the code is defined for; it rejects 262 and more. */
  predicate ErrorDefined(size: nat) {
    4 <= size < 260 || size >= 262
  }

  /** For the sizes the code is not defined for the value means nothing. */
  function ParseError(body: octets): Option<ErrorInfo> {
    if |body| < 4 || |body| >= 260 then None
    else Some(ErrorInfo(Get16(body, 0), body[2], body[3], body[4..]))
  }

  /** Two bytes for every four. */
  function ParseUnknown(body: octets): Option<seq<U16>> {
    if |body| >= 18 || |body| % 4 != 0 then None
    else Some(seq(|body| / 4, i requires 0 <= i < |body| / 4 => Get16(body, 2 * i)))
  }

  /** One attribute stored in the message, or nothing if it is malformed or unknown and not optional. */
  function ParseAttribute(m: Message, atrType: U16, body: octets): Option<Message> {
    if atrType == MAPPED_ADDRESS then
      var a := ParseAddress(body); if a.Some? then Some(m.(mappedAddress := a)) else None
    else if atrType == RESPONSE_ADDRESS then
      var a := ParseAddress(body); if a.Some? then Some(m.(responseAddress := a)) else None
    else if atrType == CHANGE_REQUEST then
      var c := ParseChangeRequest(body); if c.Some? then Some(m.(changeRequest := c)) else None
    else if atrType == SOURCE_ADDRESS then
      var a := ParseAddress(body); if a.Some? then Some(m.(sourceAddress := a)) else None
    else if atrType == CHANGED_ADDRESS then
      var a := ParseAddress(body); if a.Some? then Some(m.(changedAddress := a)) else None
    else if atrType == USERNAME then
      var s := ParseString(body); if s.Some? then Some(m.(username := s)) else None
    else if atrType == PASSWORD then
      var s := ParseString(body); if s.Some? then Some(m.(password := s)) else None
    else if atrType == MESSAGE_INTEGRITY then
      var h := ParseIntegrity(body); if h.Some? then Some(m.(messageIntegrity := h)) else None
    else if atrType == ERROR_CODE then
      var e := ParseError(body); if e.Some? then Some(m.(errorCode := e)) else None
    else if atrType == UNKNOWN_ATTRIBUTE then
      var u := ParseUnknown(body); if u.Some? then Some(m.(unknownAttributes := u)) else None
    else if atrType == REFLECTED_FROM then
      var a := ParseAddress(body); if a.Some? then Some(m.(reflectedFrom := a)) else None
    else if atrType <= 0x7FFF then None
    else Some(m)
  }

  /** The attribute loop.  Fewer bytes than an attribute header always fail its length check. */
  function ParseBody(s: octets, m: Message): Option<Message>
    decreases |s|
  {
    if s == [] then Some(m)
    else if |s| < 4 || Get16(s, 2) + 4 > |s| then None
    else
      var n := Get16(s, 2);
      match ParseAttribute(m, Get16(s, 0), s[4..4 + n])
      case None => None
      case Some(m') => ParseBody(s[4 + n..], m')
  }

  function Parse(buf: octets): Option<Message> {
    if |buf| < HEADER || Get16(buf, 2) + HEADER != |buf| then None
    else ParseBody(buf[HEADER..], Bare(Get16(buf, 0), Get16(buf, 2), buf[4..HEADER]))
  }

  /**
   * What the loop needs to be defined: a last attribute header is read whole even when fewer than
   * four bytes of the message remain, so as many must follow it in the caller's buffer, and no
   * ErrorCode that is reached has a size whose copy leaves the array of its reason.
   */
  predicate Defined(s: octets, m: Message, slack: nat)
    decreases |s|
  {
    if s == [] then true
    else if |s| < 4 then |s| + slack >= 4
    else if Get16(s, 2) + 4 > |s| then true
    else
      var n := Get16(s, 2);
      (Get16(s, 0) == ERROR_CODE ==> ErrorDefined(n))
      && match ParseAttribute(m, Get16(s, 0), s[4..4 + n])
         case None => true
         case Some(m') => Defined(s[4 + n..], m', slack)
  }

  /** The same of a received message. */
  predicate MessageDefined(buf: octets, slack: nat) {
    |buf| >= HEADER && Get16(buf, 2) + HEADER == |buf| ==>
      Defined(buf[HEADER..], Bare(Get16(buf, 0), Get16(buf, 2), buf[4..HEADER]), slack)
  }

  // ----- the bytes of an attribute, by number

  /** The number that bytes are, high byte first. */
  function Number(bytes: octets): int {
    if bytes == [] then 0 else 256 * Number(bytes[..|bytes| - 1]) + bytes[|bytes| - 1]
  }

  lemma NumberStep(s: octets, i: nat, j: nat)
    requires i < j <= |s|
    ensures Number(s[i..i]) == 0 && Number(s[i..j]) == 256 * Number(s[i..j - 1]) + s[j - 1]
  {
    assert s[i..j][..j - i - 1] == s[i..j - 1];
  }

  lemma Number2(s: octets, i: nat)
    requires i + 2 <= |s|
    ensures Number(s[i..i + 2]) == Get16(s, i)
  {
    hide Number;
    NumberStep(s, i, i + 1);
    NumberStep(s, i, i + 2);
  }

  lemma Number4(s: octets, i: nat)
    requires i + 4 <= |s|
    ensures Number(s[i..i + 4]) == Get32(s, i)
  {
    hide Number;
    Number2(s, i);
    NumberStep(s, i, i + 3);
    NumberStep(s, i, i + 4);
  }

  /** The field that an address of each type goes to. */
  function Stored(m: Message, atrType: U16): Option<Address> {
    match atrType
    case 1 => m.mappedAddress
    case 2 => m.responseAddress
    case 4 => m.sourceAddress
    case 5 => m.changedAddress
    case 11 => m.reflectedFrom
    case _ => None
  }

  /** An address is eight bytes: a pad, the family 1, the port and the address. */
  lemma AddressBytes(m: Message, atrType: U16, body: octets)
    requires atrType in {1, 2, 4, 5, 11} && |body| == 8
    ensures 0 <= Number(body[2..4]) < 0x1_0000 && 0 <= Number(body[4..8]) < 0x1_0000_0000
    ensures var r := ParseAttribute(m, atrType, body);
            && (r.Some? <==> body[1] == 1)
            && (r.Some? ==> Stored(r.value, atrType) == Some(Address(body[0], 1, Number(body[2..4]), Number(body[4..8]))))
  {
    hide Number;
    Number2(body, 2);
    Number4(body, 4);
  }

  /** A change request is four bytes, a string as many as it has, a hash twenty. */
  lemma OtherBytes(m: Message, body: octets)
    ensures |body| == 4 ==>
              && 0 <= Number(body) < 0x1_0000_0000
              && ParseAttribute(m, 3, body) == Some(m.(changeRequest := Some(Number(body))))
    ensures |body| < 256 && |body| % 4 == 0 ==> ParseAttribute(m, 6, body) == Some(m.(username := Some(body)))
    ensures |body| < 256 && |body| % 4 == 0 ==> ParseAttribute(m, 7, body) == Some(m.(password := Some(body)))
    ensures |body| == 20 ==> ParseAttribute(m, 8, body) == Some(m.(messageIntegrity := Some(body)))
  {
    hide Number;
    if |body| == 4 {
      Number4(body, 0);
      assert body[0..4] == body;
    }
  }

  /** An UnknownAttributes gives one type for every four bytes: the number in bytes 2i and 2i + 1 is type i. */
  lemma UnknownBytes(m: Message, body: octets)
    requires |body| < 18 && |body| % 4 == 0
    ensures var r := ParseAttribute(m, 10, body);
            && r.Some? && r.value.unknownAttributes.Some? && |r.value.unknownAttributes.value| == |body| / 4
            && forall i :: 0 <= i < |body| / 4 ==> r.value.unknownAttributes.value[i] == Number(body[2 * i..2 * i + 2])
  {
    hide Number;
    forall i | 0 <= i < |body| / 4 ensures Get16(body, 2 * i) == Number(body[2 * i..2 * i + 2]) {
      Number2(body, 2 * i);
    }
  }

  /** Other types are ignored above 0x7FFF and refused below. */
  lemma OtherTypes(m: Message, atrType: U16, body: octets)
    requires atrType == 0 || atrType > 11
    ensures ParseAttribute(m, atrType, body) == if atrType > 0x7FFF then Some(m) else None
  {
  }

  /** An ErrorCode is two bytes of padding, the class in byte 2, the number in byte 3, and the reason. */
  lemma ErrorBytes(m: Message, body: octets)
    requires 4 <= |body| < 260
    ensures 0 <= Number(body[0..2]) < 0x1_0000
    ensures ParseAttribute(m, 9, body)
            == Some(m.(errorCode := Some(ErrorInfo(Number(body[0..2]), body[2], body[3], body[4..]))))
  {
    hide Number;
    Number2(body, 0);
  }

  lemma AttributeKeepsHeader(m: Message, atrType: U16, body: octets)
    ensures var r := ParseAttribute(m, atrType, body);
            r.Some? ==> r.value.msgType == m.msgType && r.value.msgLength == m.msgLength && r.value.id == m.id
  {
    hide ParseAddress, ParseChangeRequest, ParseString, ParseIntegrity, ParseError, ParseUnknown;
  }

  lemma {:induction false} BodyKeepsHeader(s: octets, m: Message)
    ensures var r := ParseBody(s, m);
            r.Some? ==> r.value.msgType == m.msgType && r.value.msgLength == m.msgLength && r.value.id == m.id
    decreases |s|
  {
    if |s| >= 4 && Get16(s, 2) + 4 <= |s| {
      var n := Get16(s, 2);
      var r := ParseAttribute(m, Get16(s, 0), s[4..4 + n]);
      AttributeKeepsHeader(m, Get16(s, 0), s[4..4 + n]);
      if r.Some? {
        BodyKeepsHeader(s[4 + n..], r.value);
      }
      hide ParseAttribute;
    }
  }

  /** A message is its type, its length less these twenty bytes, and its id. */
  lemma HeaderBytes(buf: octets)
    ensures var r := Parse(buf);
            r.Some? ==> && |buf| >= 20 && r.value.msgType == Number(buf[0..2])
                        && r.value.msgLength == Number(buf[2..4]) == |buf| - 20 && r.value.id == buf[4..20]
  {
    hide Number, ParseBody;
    if Parse(buf).Some? {
      Number2(buf, 0);
      Number2(buf, 2);
      BodyKeepsHeader(buf[HEADER..], Bare(Get16(buf, 0), Get16(buf, 2), buf[4..HEADER]));
    }
  }

  // ----- printing

  /** An attribute as printed: the length it declares may differ from its body's. */
  datatype Attr = Attr(atrType: U16, length: U16, body: octets)

  function PrintAttr(a: Attr): octets {
    Put16(a.atrType) + Put16(a.length) + a.body
  }

  function PrintAttrs(list: seq<Attr>): octets {
    if list == [] then [] else PrintAttr(list[0]) + PrintAttrs(list[1..])
  }

  predicate Honest(a: Attr) {
    a.length == |a.body|
  }

  /** The address family is always printed as IPv4. */
  function AddressAttr(atrType: U16, a: Address): Attr {
    Attr(atrType, 8, [a.pad, IPV4_FAMILY] + Put16(a.port) + Put32(a.addr))
  }

  function StringAttr(atrType: U16, s: octets): Attr
    requires |s| < MAX_STRING
  {
    Attr(atrType, |s|, s)
  }

  function ErrorAttr(e: ErrorInfo): Attr
    requires |e.reason| < MAX_STRING
  {
    Attr(ERROR_CODE, 6 + |e.reason|, Put16(e.pad) + [e.errorClass, e.number] + e.reason)
  }

  /** It is printed in the same order, behind its type and a length that is two too large. */
  lemma ErrorPrinted(e: ErrorInfo)
    requires |e.reason| < MAX_STRING
    ensures PrintAttr(ErrorAttr(e)) ==
              [0, 9, (6 + |e.reason|) / 256, (6 + |e.reason|) % 256, e.pad / 256, e.pad % 256, e.errorClass, e.number] + e.reason
  {
  }

  function PrintTypes(types: seq<U16>): octets {
    if types == [] then [] else PrintTypes(types[..|types| - 1]) + Put16(types[|types| - 1])
  }

  function UnknownAttr(types: seq<U16>): Attr
    requires |types| <= MAX_UNKNOWN
  {
    Attr(UNKNOWN_ATTRIBUTE, 2 + 2 * |types|, PrintTypes(types))
  }

  /** What fits in the message's arrays, with string sizes the encoder asserts. */
  predicate Fits(m: Message) {
    && |m.id| == 16
    && (m.username.Some? ==> |m.username.value| < MAX_STRING && |m.username.value| % 4 == 0)
    && (m.password.Some? ==> |m.password.value| < MAX_STRING && |m.password.value| % 4 == 0)
    && (m.errorCode.Some? ==> |m.errorCode.value.reason| < MAX_STRING)
    && (m.unknownAttributes.Some? ==> |m.unknownAttributes.value| <= MAX_UNKNOWN)
  }

  function OfAddress(atrType: U16, a: Option<Address>): seq<Attr> {
    if a.Some? then [AddressAttr(atrType, a.value)] else []
  }

  function OfString(atrType: U16, s: Option<octets>): seq<Attr>
    requires s.Some? ==> |s.value| < MAX_STRING
  {
    if s.Some? then [StringAttr(atrType, s.value)] else []
  }

  function OfChange(c: Option<U32>): seq<Attr> {
    if c.Some? then [Attr(CHANGE_REQUEST, 4, Put32(c.value))] else []
  }

  function OfError(e: Option<ErrorInfo>): seq<Attr>
    requires e.Some? ==> |e.value.reason| < MAX_STRING
  {
    if e.Some? then [ErrorAttr(e.value)] else []
  }

  function OfUnknown(u: Option<seq<U16>>): seq<Attr>
    requires u.Some? ==> |u.value| <= MAX_UNKNOWN
  {
    if u.Some? then [UnknownAttr(u.value)] else []
  }

  /** The attributes in the order printed, without the integrity hash. */
  function Attrs(m: Message): seq<Attr>
    requires Fits(m)
  {
    OfAddress(MAPPED_ADDRESS, m.mappedAddress)
    + OfAddress(RESPONSE_ADDRESS, m.responseAddress)
    + OfChange(m.changeRequest)
    + OfAddress(SOURCE_ADDRESS, m.sourceAddress)
    + OfAddress(CHANGED_ADDRESS, m.changedAddress)
    + OfString(USERNAME, m.username)
    + OfString(PASSWORD, m.password)
    + OfError(m.errorCode)
    + OfUnknown(m.unknownAttributes)
    + OfAddress(REFLECTED_FROM, m.reflectedFrom)
  }

  type Digest = d: octets | |d| == 20 witness seq(20, _ => 0)

  /** computeHmac, on the message printed so far and the password. */
  type Hmac = (octets, octets) -> Digest

  function Header(msgType: U16, length: U16, id: octets): octets {
    Put16(msgType) + Put16(length) + id
  }

  /** The hash covers the message as it stands before its length is filled in. */
  function Integrity(m: Message, password: octets, hmac: Hmac): seq<Attr>
    requires Fits(m)
  {
    if password == [] then []
    else [Attr(MESSAGE_INTEGRITY, 20, hmac(Header(m.msgType, 0, m.id) + PrintAttrs(Attrs(m)), password))]
  }

  function Body(m: Message, password: octets, hmac: Hmac): octets
    requires Fits(m)
  {
    PrintAttrs(Attrs(m) + Integrity(m, password, hmac))
  }

  // ----- sizes

  lemma {:induction false} PrintConcat(a: seq<Attr>, b: seq<Attr>)
    ensures PrintAttrs(a + b) == PrintAttrs(a) + PrintAttrs(b)
    decreases |a|
  {
    hide PrintAttr;
    if a == [] {
      assert a + b == b;
    } else {
      assert (a + b)[1..] == a[1..] + b;
      PrintConcat(a[1..], b);
    }
  }

  lemma {:induction false} TypesLength(types: seq<U16>)
    ensures |PrintTypes(types)| == 2 * |types|
    decreases |types|
  {
    if types != [] {
      TypesLength(types[..|types| - 1]);
    }
  }

  lemma OnePrinted(list: seq<Attr>)
    requires |list| <= 1
    ensures PrintAttrs(list) == if list == [] then [] else PrintAttr(list[0])
  {
    if list != [] {
      assert list[1..] == [];
    }
  }

  lemma AddressSize(atrType: U16, a: Option<Address>)
    ensures |PrintAttrs(OfAddress(atrType, a))| <= 12
  {
    OnePrinted(OfAddress(atrType, a));
  }

  lemma StringSize(atrType: U16, s: Option<octets>)
    requires s.Some? ==> |s.value| < MAX_STRING
    ensures |PrintAttrs(OfString(atrType, s))| <= 259
  {
    OnePrinted(OfString(atrType, s));
  }

  lemma OtherSizes(m: Message)
    requires Fits(m)
    ensures |PrintAttrs(OfChange(m.changeRequest))| <= 8
    ensures |PrintAttrs(OfError(m.errorCode))| <= 263
    ensures |PrintAttrs(OfUnknown(m.unknownAttributes))| <= 20
  {
    OnePrinted(OfChange(m.changeRequest));
    OnePrinted(OfError(m.errorCode));
    OnePrinted(OfUnknown(m.unknownAttributes));
    if m.unknownAttributes.Some? {
      TypesLength(m.unknownAttributes.value);
    }
  }

  /** The pieces of a printed message one after another. */
  lemma AttrsPrinted(m: Message)
    requires Fits(m)
    ensures PrintAttrs(Attrs(m)) ==
            PrintAttrs(OfAddress(MAPPED_ADDRESS, m.mappedAddress))
            + PrintAttrs(OfAddress(RESPONSE_ADDRESS, m.responseAddress))
            + PrintAttrs(OfChange(m.changeRequest))
            + PrintAttrs(OfAddress(SOURCE_ADDRESS, m.sourceAddress))
            + PrintAttrs(OfAddress(CHANGED_ADDRESS, m.changedAddress))
            + PrintAttrs(OfString(USERNAME, m.username))
            + PrintAttrs(OfString(PASSWORD, m.password))
            + PrintAttrs(OfError(m.errorCode))
            + PrintAttrs(OfUnknown(m.unknownAttributes))
            + PrintAttrs(OfAddress(REFLECTED_FROM, m.reflectedFrom))
  {
    hide OfAddress, OfString, OfChange, OfError, OfUnknown, PrintAttrs;
    var p1 := OfAddress(MAPPED_ADDRESS, m.mappedAddress);
    var p2 := p1 + OfAddress(RESPONSE_ADDRESS, m.responseAddress);
    var p3 := p2 + OfChange(m.changeRequest);
    var p4 := p3 + OfAddress(SOURCE_ADDRESS, m.sourceAddress);
    var p5 := p4 + OfAddress(CHANGED_ADDRESS, m.changedAddress);
    var p6 := p5 + OfString(USERNAME, m.username);
    var p7 := p6 + OfString(PASSWORD, m.password);
    var p8 := p7 + OfError(m.errorCode);
    var p9 := p8 + OfUnknown(m.unknownAttributes);
    PrintConcat(p1, OfAddress(RESPONSE_ADDRESS, m.responseAddress));
    PrintConcat(p2, OfChange(m.changeRequest));
    PrintConcat(p3, OfAddress(SOURCE_ADDRESS, m.sourceAddress));
    PrintConcat(p4, OfAddress(CHANGED_ADDRESS, m.changedAddress));
    PrintConcat(p5, OfString(USERNAME, m.username));
    PrintConcat(p6, OfString(PASSWORD, m.password));
    PrintConcat(p7, OfError(m.errorCode));
    PrintConcat(p8, OfUnknown(m.unknownAttributes));
    PrintConcat(p9, OfAddress(REFLECTED_FROM, m.reflectedFrom));
  }

  lemma AttrsSize(m: Message)
    requires Fits(m)
    ensures |PrintAttrs(Attrs(m))| <= 869
  {
    AttrsPrinted(m);
    AddressSize(MAPPED_ADDRESS, m.mappedAddress);
    AddressSize(RESPONSE_ADDRESS, m.responseAddress);
    AddressSize(SOURCE_ADDRESS, m.sourceAddress);
    AddressSize(CHANGED_ADDRESS, m.changedAddress);
    AddressSize(REFLECTED_FROM, m.reflectedFrom);
    StringSize(USERNAME, m.username);
    StringSize(PASSWORD, m.password);
    OtherSizes(m);
    hide OfAddress, OfString, OfChange, OfError, OfUnknown, PrintAttrs, Attrs;
  }

  lemma BodySize(m: Message, password: octets, hmac: Hmac)
    requires Fits(m)
    ensures |Body(m, password, hmac)| <= 893
  {
    var list, last := Attrs(m), Integrity(m, password, hmac);
    AttrsSize(m);
    PrintConcat(list, last);
    OnePrinted(last);
    hide PrintAttrs, Attrs;
  }

  /** stunEncodeMessage */
  function Print(m: Message, password: octets, hmac: Hmac): octets
    requires Fits(m)
  {
    BodySize(m, password, hmac);
    var body := Body(m, password, hmac);
    Header(m.msgType, |body|, m.id) + body
  }

  /** The three parts of a header, read back. */
  lemma HeaderParts(msgType: U16, length: U16, id: octets, body: octets)
    requires |id| == 16
    ensures var s := Header(msgType, length, id) + body;
            && |s| == HEADER + |body|
            && Get16(s, 0) == msgType && Get16(s, 2) == length && s[4..HEADER] == id && s[HEADER..] == body
  {
    hide Put16, Get16;
    var s := Header(msgType, length, id) + body;
    PutGet16([], msgType, Put16(length) + id + body);
    assert [] + Put16(msgType) + (Put16(length) + id + body) == s;
    PutGet16(Put16(msgType), length, id + body);
    assert Put16(msgType) + Put16(length) + (id + body) == s;
  }

  /** Every message fits the buffer its callers provide, and its length field is the total less the header. */
  lemma PrintSize(m: Message, password: octets, hmac: Hmac)
    requires Fits(m)
    ensures var r := Print(m, password, hmac);
            HEADER <= |r| <= MAX_MESSAGE && Get16(r, 2) == |r| - HEADER
  {
    BodySize(m, password, hmac);
    hide Body;
    var body := Body(m, password, hmac);
    HeaderParts(m.msgType, |body|, m.id, body);
  }

  // ----- parsing what was printed

  function ParseList(list: seq<Attr>, m: Message): Option<Message>
    decreases |list|
  {
    if list == [] then Some(m)
    else match ParseAttribute(m, list[0].atrType, list[0].body)
         case None => None
         case Some(m') => ParseList(list[1..], m')
  }

  /** An attribute in front of anything, as the parser sees it: with the length it declares. */
  lemma AttrRead(a: Attr, y: octets)
    ensures var s := PrintAttr(a) + y; |s| >= 4 && Get16(s, 0) == a.atrType && Get16(s, 2) == a.length
  {
    var s := PrintAttr(a) + y;
    assert s == [] + Put16(a.atrType) + (Put16(a.length) + a.body + y);
    PutGet16([], a.atrType, Put16(a.length) + a.body + y);
    assert s == Put16(a.atrType) + Put16(a.length) + (a.body + y);
    PutGet16(Put16(a.atrType), a.length, a.body + y);
  }

  lemma ParseOne(a: Attr, y: octets, m: Message)
    requires Honest(a)
    ensures ParseBody(PrintAttr(a) + y, m) ==
            match ParseAttribute(m, a.atrType, a.body) case None => None case Some(m') => ParseBody(y, m')
  {
    hide ParseAttribute;
    var s, n := PrintAttr(a) + y, |a.body|;
    AttrRead(a, y);
    assert s[4..4 + n] == a.body && s[4 + n..] == y;
  }

  /** Whole attributes in front are parsed one by one, whatever follows. */
  lemma {:induction false} ParsePrinted(list: seq<Attr>, y: octets, m: Message)
    requires forall a :: a in list ==> Honest(a)
    ensures ParseBody(PrintAttrs(list) + y, m) ==
            match ParseList(list, m) case None => None case Some(m') => ParseBody(y, m')
    decreases |list|
  {
    hide ParseAttribute, PrintAttr, ParseBody;
    if list == [] {
      assert PrintAttrs(list) + y == y;
    } else {
      var a, more := list[0], list[1..];
      assert PrintAttrs(list) + y == PrintAttr(a) + (PrintAttrs(more) + y);
      ParseOne(a, PrintAttrs(more) + y, m);
      match ParseAttribute(m, a.atrType, a.body)
      case None =>
      case Some(m') => ParsePrinted(more, y, m');
    }
  }

  // ----- optional attributes

  /** The attributes a receiver must understand. */
  function Mandatory(list: seq<Attr>): seq<Attr> {
    if list == [] then []
    else (if list[0].atrType > 0x7FFF then [] else [list[0]]) + Mandatory(list[1..])
  }

  lemma OptionalSkipped(m: Message, a: Attr)
    requires a.atrType > 0x7FFF
    ensures ParseAttribute(m, a.atrType, a.body) == Some(m)
  {
  }

  lemma {:induction false} OptionalIgnored(list: seq<Attr>, m: Message)
    ensures ParseList(list, m) == ParseList(Mandatory(list), m)
    ensures forall a :: a in Mandatory(list) ==> a in list
    decreases |list|
  {
    hide ParseAttribute;
    if list != [] {
      var a, more := list[0], list[1..];
      if a.atrType > 0x7FFF {
        OptionalSkipped(m, a);
        OptionalIgnored(more, m);
        assert [] + Mandatory(more) == Mandatory(more);
      } else {
        assert ([a] + Mandatory(more))[1..] == Mandatory(more);
        match ParseAttribute(m, a.atrType, a.body)
        case None => OptionalIgnored(more, m);
        case Some(m') => OptionalIgnored(more, m');
      }
    }
  }

  function WithLength(r: Option<Message>, n: U16): Option<Message> {
    match r case None => None case Some(m) => Some(m.(msgLength := n))
  }

  lemma AttributeKeepsLength(m: Message, atrType: U16, body: octets, n: U16)
    ensures ParseAttribute(m.(msgLength := n), atrType, body) == WithLength(ParseAttribute(m, atrType, body), n)
  {
    hide ParseAddress, ParseChangeRequest, ParseString, ParseIntegrity, ParseError, ParseUnknown;
  }

  lemma {:induction false} BodyKeepsLength(s: octets, m: Message, n: U16)
    ensures ParseBody(s, m.(msgLength := n)) == WithLength(ParseBody(s, m), n)
    decreases |s|
  {
    hide ParseAttribute;
    if |s| >= 4 && Get16(s, 2) + 4 <= |s| {
      var k := Get16(s, 2);
      AttributeKeepsLength(m, Get16(s, 0), s[4..4 + k], n);
      match ParseAttribute(m, Get16(s, 0), s[4..4 + k])
      case None =>
      case Some(m') => BodyKeepsLength(s[4 + k..], m', n);
    }
  }

  /** A message with attributes in front of anything else. */
  function Frame(msgType: U16, id: octets, list: seq<Attr>, y: octets): octets
    requires |PrintAttrs(list) + y| < 0x1_0000
  {
    Header(msgType, |PrintAttrs(list) + y|, id) + (PrintAttrs(list) + y)
  }

  lemma ParseFrame(msgType: U16, id: octets, body: octets)
    requires |id| == 16 && |body| < 0x1_0000
    ensures Parse(Header(msgType, |body|, id) + body) == ParseBody(body, Bare(msgType, |body|, id))
  {
    HeaderParts(msgType, |body|, id, body);
    hide ParseBody, Get16, Bare, Header;
  }

  lemma {:induction false} MandatoryShorter(list: seq<Attr>)
    ensures |PrintAttrs(Mandatory(list))| <= |PrintAttrs(list)|
    decreases |list|
  {
    if list != [] {
      MandatoryShorter(list[1..]);
      if list[0].atrType > 0x7FFF {
        assert [] + Mandatory(list[1..]) == Mandatory(list[1..]);
      } else {
        assert ([list[0]] + Mandatory(list[1..]))[1..] == Mandatory(list[1..]);
      }
    }
  }

  /**
   * Any number of attributes of type above 0x7FFF, at any attribute boundaries and with the
   * header's length adjusted, change nothing in the outcome but the message length; what stands
   * after the boundary part may be anything, well formed or not.
   */
  lemma OptionalAttributes(msgType: U16, id: octets, list: seq<Attr>, y: octets)
    requires |id| == 16 && |PrintAttrs(list) + y| < 0x1_0000
    requires forall a :: a in list ==> Honest(a)
    ensures |PrintAttrs(Mandatory(list)) + y| < 0x1_0000
    ensures Parse(Frame(msgType, id, list, y)) ==
            WithLength(Parse(Frame(msgType, id, Mandatory(list), y)), |PrintAttrs(list) + y|)
  {
    hide ParseBody, Parse, PrintAttrs, ParseList;
    MandatoryShorter(list);
    var without := Mandatory(list);
    var long, short := PrintAttrs(list) + y, PrintAttrs(without) + y;
    var m, m' := Bare(msgType, |long|, id), Bare(msgType, |short|, id);
    OptionalIgnored(list, m);
    ParsePrinted(list, y, m);
    ParsePrinted(without, y, m);
    ParseFrame(msgType, id, long);
    ParseFrame(msgType, id, short);
    BodyKeepsLength(short, m', |long|);
  }

  // ----- optional attributes and the bounds of the parse

  predicate DefinedList(list: seq<Attr>, m: Message)
    decreases |list|
  {
    if list == [] then true
    else
      (list[0].atrType == ERROR_CODE ==> ErrorDefined(|list[0].body|))
      && match ParseAttribute(m, list[0].atrType, list[0].body)
         case None => true
         case Some(m') => DefinedList(list[1..], m')
  }

  lemma DefinedOne(a: Attr, y: octets, m: Message, slack: nat)
    requires Honest(a)
    ensures Defined(PrintAttr(a) + y, m, slack) <==>
            (a.atrType == ERROR_CODE ==> ErrorDefined(|a.body|))
            && match ParseAttribute(m, a.atrType, a.body) case None => true case Some(m') => Defined(y, m', slack)
  {
    hide ParseAttribute, ErrorDefined;
    var s, n := PrintAttr(a) + y, |a.body|;
    AttrRead(a, y);
    assert s[4..4 + n] == a.body && s[4 + n..] == y;
  }

  lemma {:induction false} DefinedPrinted(list: seq<Attr>, y: octets, m: Message, slack: nat)
    requires forall a :: a in list ==> Honest(a)
    ensures Defined(PrintAttrs(list) + y, m, slack) <==>
            DefinedList(list, m) && match ParseList(list, m) case None => true case Some(m') => Defined(y, m', slack)
    decreases |list|
  {
    hide ParseAttribute, PrintAttr, Defined, ErrorDefined;
    if list == [] {
      assert PrintAttrs(list) + y == y;
    } else {
      var a, more := list[0], list[1..];
      assert PrintAttrs(list) + y == PrintAttr(a) + (PrintAttrs(more) + y);
      DefinedOne(a, PrintAttrs(more) + y, m, slack);
      match ParseAttribute(m, a.atrType, a.body)
      case None =>
      case Some(m') => DefinedPrinted(more, y, m', slack);
    }
  }

  lemma {:induction false} OptionalDefined(list: seq<Attr>, m: Message)
    ensures DefinedList(list, m) <==> DefinedList(Mandatory(list), m)
    decreases |list|
  {
    hide ParseAttribute, ErrorDefined;
    if list != [] {
      var a, more := list[0], list[1..];
      if a.atrType > 0x7FFF {
        OptionalSkipped(m, a);
        OptionalDefined(more, m);
        assert [] + Mandatory(more) == Mandatory(more);
      } else {
        assert ([a] + Mandatory(more))[1..] == Mandatory(more);
        match ParseAttribute(m, a.atrType, a.body)
        case None =>
        case Some(m') => OptionalDefined(more, m');
      }
    }
  }

  lemma {:induction false} DefinedKeepsLength(s: octets, m: Message, n: U16, slack: nat)
    ensures Defined(s, m.(msgLength := n), slack) <==> Defined(s, m, slack)
    decreases |s|
  {
    hide ParseAttribute, ErrorDefined;
    if |s| >= 4 && Get16(s, 2) + 4 <= |s| {
      var k := Get16(s, 2);
      AttributeKeepsLength(m, Get16(s, 0), s[4..4 + k], n);
      match ParseAttribute(m, Get16(s, 0), s[4..4 + k])
      case None =>
      case Some(m') => DefinedKeepsLength(s[4 + k..], m', n, slack);
    }
  }

  lemma DefinedFrame(msgType: U16, id: octets, body: octets, slack: nat)
    requires |id| == 16 && |body| < 0x1_0000
    ensures MessageDefined(Header(msgType, |body|, id) + body, slack) <==>
            Defined(body, Bare(msgType, |body|, id), slack)
  {
    HeaderParts(msgType, |body|, id, body);
    hide Defined, Get16, Bare, Header;
  }

  /** Nor do they change whether the parse is defined. */
  lemma OptionalAttributesDefined(msgType: U16, id: octets, list: seq<Attr>, y: octets, slack: nat)
    requires |id| == 16 && |PrintAttrs(list) + y| < 0x1_0000
    requires forall a :: a in list ==> Honest(a)
    ensures |PrintAttrs(Mandatory(list)) + y| < 0x1_0000
    ensures MessageDefined(Frame(msgType, id, list, y), slack) <==>
            MessageDefined(Frame(msgType, id, Mandatory(list), y), slack)
  {
    hide Defined, MessageDefined, PrintAttrs, ParseList, DefinedList;
    MandatoryShorter(list);
    var without := Mandatory(list);
    var long, short := PrintAttrs(list) + y, PrintAttrs(without) + y;
    var m := Bare(msgType, |long|, id);
    OptionalIgnored(list, m);
    OptionalDefined(list, m);
    DefinedPrinted(list, y, m, slack);
    DefinedPrinted(without, y, m, slack);
    DefinedFrame(msgType, id, long, slack);
    DefinedFrame(msgType, id, short, slack);
    DefinedKeepsLength(short, Bare(msgType, |short|, id), |long|, slack);
  }

  // ----- the round trip

  lemma {:induction false} ParseConcat(a: seq<Attr>, b: seq<Attr>, m: Message)
    ensures ParseList(a + b, m) == match ParseList(a, m) case None => None case Some(m') => ParseList(b, m')
    decreases |a|
  {
    hide ParseAttribute;
    if a == [] {
      assert a + b == b;
    } else {
      assert (a + b)[1..] == a[1..] + b;
      match ParseAttribute(m, a[0].atrType, a[0].body)
      case None =>
      case Some(m') => ParseConcat(a[1..], b, m');
    }
  }

  function Ipv4(a: Option<Address>): Option<Address> {
    match a case None => None case Some(x) => Some(x.(family := IPV4_FAMILY))
  }

  lemma AddressBack(atrType: U16, a: Address)
    ensures ParseAddress(AddressAttr(atrType, a).body) == Ipv4(Some(a))
  {
    hide Get16, Get32, Put16, Put32;
    var head, body := [a.pad, IPV4_FAMILY], AddressAttr(atrType, a).body;
    assert body == head + Put16(a.port) + Put32(a.addr);
    PutGet16(head, a.port, Put32(a.addr));
    assert body == head + Put16(a.port) + Put32(a.addr) + [];
    PutGet32(head + Put16(a.port), a.addr, []);
  }

  lemma ChangeBack(c: U32)
    ensures ParseChangeRequest(Put32(c)) == Some(c)
  {
    PutGet32([], c, []);
    assert [] + Put32(c) + [] == Put32(c);
  }

  /** At most one attribute. */
  lemma ParseSingle(list: seq<Attr>, m: Message)
    requires |list| <= 1
    ensures ParseList(list, m) == if list == [] then Some(m) else ParseAttribute(m, list[0].atrType, list[0].body)
  {
    hide ParseAttribute;
    if list != [] {
      assert list[1..] == [];
    }
  }

  /** Each optional part of a message sets its own field and no other. */
  lemma AddressParsed(atrType: U16, a: Option<Address>, m: Message)
    ensures var r := ParseList(OfAddress(atrType, a), m);
            && (atrType == MAPPED_ADDRESS && m.mappedAddress == None ==> r == Some(m.(mappedAddress := Ipv4(a))))
            && (atrType == RESPONSE_ADDRESS && m.responseAddress == None ==> r == Some(m.(responseAddress := Ipv4(a))))
            && (atrType == SOURCE_ADDRESS && m.sourceAddress == None ==> r == Some(m.(sourceAddress := Ipv4(a))))
            && (atrType == CHANGED_ADDRESS && m.changedAddress == None ==> r == Some(m.(changedAddress := Ipv4(a))))
            && (atrType == REFLECTED_FROM && m.reflectedFrom == None ==> r == Some(m.(reflectedFrom := Ipv4(a))))
  {
    ParseSingle(OfAddress(atrType, a), m);
    if a.Some? {
      AddressBack(atrType, a.value);
      hide ParseAddress;
    }
  }

  lemma OthersParsed(m: Message, c: Option<U32>, s: Option<octets>)
    requires s.Some? ==> |s.value| < MAX_STRING && |s.value| % 4 == 0
    ensures m.changeRequest == None ==> ParseList(OfChange(c), m) == Some(m.(changeRequest := c))
    ensures m.username == None ==> ParseList(OfString(USERNAME, s), m) == Some(m.(username := s))
    ensures m.password == None ==> ParseList(OfString(PASSWORD, s), m) == Some(m.(password := s))
  {
    ParseSingle(OfChange(c), m);
    ParseSingle(OfString(USERNAME, s), m);
    ParseSingle(OfString(PASSWORD, s), m);
    if c.Some? {
      ChangeBack(c.value);
    }
    hide ParseChangeRequest, Put32;
  }

  /** What a receiver is left with: addresses are IPv4, and the hash is the one computed. */
  function Received(m: Message, password: octets, hmac: Hmac): Message
    requires Fits(m)
  {
    var last := Integrity(m, password, hmac);
    BodySize(m, password, hmac);
    m.(msgLength := |Body(m, password, hmac)|,
       mappedAddress := Ipv4(m.mappedAddress), responseAddress := Ipv4(m.responseAddress),
       sourceAddress := Ipv4(m.sourceAddress), changedAddress := Ipv4(m.changedAddress),
       reflectedFrom := Ipv4(m.reflectedFrom),
       messageIntegrity := if last == [] then None else Some(last[0].body))
  }

  /** The attributes printed for m, parsed into an empty message. */
  lemma AttrsParsed(m: Message, m0: Message)
    requires Fits(m) && m.errorCode == None && m.unknownAttributes == None
    requires m0 == Bare(m.msgType, m0.msgLength, m.id)
    ensures ParseList(Attrs(m), m0) == Some(m.(msgLength := m0.msgLength,
       mappedAddress := Ipv4(m.mappedAddress), responseAddress := Ipv4(m.responseAddress),
       sourceAddress := Ipv4(m.sourceAddress), changedAddress := Ipv4(m.changedAddress),
       reflectedFrom := Ipv4(m.reflectedFrom), messageIntegrity := None))
  {
    var e, f, g, h := OfAddress(RESPONSE_ADDRESS, m.responseAddress), OfAddress(SOURCE_ADDRESS, m.sourceAddress),
      OfAddress(CHANGED_ADDRESS, m.changedAddress), OfAddress(REFLECTED_FROM, m.reflectedFrom);
    var c, u, p := OfChange(m.changeRequest), OfString(USERNAME, m.username), OfString(PASSWORD, m.password);
    var p1 := OfAddress(MAPPED_ADDRESS, m.mappedAddress);
    var p2 := p1 + e;
    var p3 := p2 + c;
    var p4 := p3 + f;
    var p5 := p4 + g;
    var p6 := p5 + u;
    var p7 := p6 + p;
    assert Attrs(m) == p7 + h by {
      assert OfError(m.errorCode) == [] && OfUnknown(m.unknownAttributes) == [];
      assert p7 + [] + [] == p7;
    }
    hide ParseAttribute, OfAddress, OfString, OfChange, Attrs, ParseList;
    AddressParsed(MAPPED_ADDRESS, m.mappedAddress, m0);
    var m1 := m0.(mappedAddress := Ipv4(m.mappedAddress));
    AddressParsed(RESPONSE_ADDRESS, m.responseAddress, m1);
    ParseConcat(p1, e, m0);
    var m2 := m1.(responseAddress := Ipv4(m.responseAddress));
    OthersParsed(m2, m.changeRequest, None);
    ParseConcat(p2, c, m0);
    var m3 := m2.(changeRequest := m.changeRequest);
    AddressParsed(SOURCE_ADDRESS, m.sourceAddress, m3);
    ParseConcat(p3, f, m0);
    var m4 := m3.(sourceAddress := Ipv4(m.sourceAddress));
    AddressParsed(CHANGED_ADDRESS, m.changedAddress, m4);
    ParseConcat(p4, g, m0);
    var m5 := m4.(changedAddress := Ipv4(m.changedAddress));
    OthersParsed(m5, None, m.username);
    ParseConcat(p5, u, m0);
    var m6 := m5.(username := m.username);
    OthersParsed(m6, None, m.password);
    ParseConcat(p6, p, m0);
    var m7 := m6.(password := m.password);
    AddressParsed(REFLECTED_FROM, m.reflectedFrom, m7);
    ParseConcat(p7, h, m0);
  }

  lemma AttrsHonest(m: Message, password: octets, hmac: Hmac)
    requires Fits(m) && m.errorCode == None && m.unknownAttributes == None
    ensures forall a :: a in Attrs(m) + Integrity(m, password, hmac) ==> Honest(a)
  {
  }

  lemma IntegrityParsed(m: Message, password: octets, hmac: Hmac, m': Message)
    requires Fits(m) && m'.messageIntegrity == None
    ensures var last := Integrity(m, password, hmac);
            ParseList(last, m') == Some(m'.(messageIntegrity := if last == [] then None else Some(last[0].body)))
  {
    ParseSingle(Integrity(m, password, hmac), m');
    hide Attrs;
  }

  /**
   * The round trip: a message of addresses, a change request and strings comes back with the same
   * fields; nothing is asked of the password or of what the hash function computes.
   */
  lemma RoundTrip(m: Message, password: octets, hmac: Hmac)
    requires Fits(m) && m.errorCode == None && m.unknownAttributes == None
    ensures Parse(Print(m, password, hmac)) == Some(Received(m, password, hmac))
  {
    BodySize(m, password, hmac);
    AttrsHonest(m, password, hmac);
    var body, list, last := Body(m, password, hmac), Attrs(m), Integrity(m, password, hmac);
    var m0 := Bare(m.msgType, |body|, m.id);
    AttrsParsed(m, m0);
    ParseConcat(list, last, m0);
    IntegrityParsed(m, password, hmac, ParseList(list, m0).value);
    hide Attrs, Integrity, ParseList, ParseAttribute, Parse;
    ParseFrame(m.msgType, m.id, body);
    ParsePrinted(list + last, [], m0);
    assert PrintAttrs(list + last) + [] == body;
    hide PrintAttrs;
  }

  // ----- attributes whose declared length is not their size

  /** An attribute that declares two bytes more than it has swallows the start of the next one, or ends the parse. */
  lemma Swallows(a: Attr, y: octets, m: Message)
    requires a.length == |a.body| + 2
    requires |y| >= 2 ==> forall m' :: ParseBody(y[2..], m') == None
    ensures ParseBody(PrintAttr(a) + y, m) == None
  {
    hide ParseAttribute;
    var s, n := PrintAttr(a) + y, |a.body|;
    AttrRead(a, y);
    if |y| >= 2 {
      assert s[4 + (n + 2)..] == y[2..];
    }
  }

  /** What is left of the next attribute does not parse: its length is read as a type. */
  lemma Misread(a: Attr, y: octets, m: Message)
    requires Honest(a) && (a.length == 20 || (a.length == 8 && a.body[1] == IPV4_FAMILY))
    ensures ParseBody((PrintAttr(a) + y)[2..], m) == None
  {
    var z := (PrintAttr(a) + y)[2..];
    assert z == [] + Put16(a.length) + (a.body + y);
    PutGet16([], a.length, a.body + y);
    assert z[2] == a.body[0] && z[3] == a.body[1];
    hide ParseAddress, ParseChangeRequest, ParseString, ParseError, ParseUnknown;
  }

  lemma PrintedSize(a: Attr)
    ensures |PrintAttr(a)| == 4 + |a.body|
  {
  }

  lemma MisreadRest(m: Message, password: octets, hmac: Hmac)
    requires Fits(m)
    ensures var y := PrintAttrs(OfAddress(REFLECTED_FROM, m.reflectedFrom) + Integrity(m, password, hmac));
            y == [] || (|y| >= 2 && forall m' :: ParseBody(y[2..], m') == None)
  {
    hide ParseBody, Attrs, PrintAttr;
    var first, last := OfAddress(REFLECTED_FROM, m.reflectedFrom), Integrity(m, password, hmac);
    var list := first + last;
    if list != [] {
      assert PrintAttrs(list) == PrintAttr(list[0]) + PrintAttrs(list[1..]);
      PrintedSize(list[0]);
      forall m' ensures ParseBody(PrintAttrs(list)[2..], m') == None {
        Misread(list[0], PrintAttrs(list[1..]), m');
      }
    }
  }

  /** The attributes before the error code. */
  function Before(m: Message): seq<Attr>
    requires Fits(m)
  {
    Attrs(m.(errorCode := None, unknownAttributes := None, reflectedFrom := None))
  }

  lemma BeforeIs(m: Message, pre: seq<Attr>)
    requires Fits(m)
    requires pre == OfAddress(MAPPED_ADDRESS, m.mappedAddress) + OfAddress(RESPONSE_ADDRESS, m.responseAddress)
      + OfChange(m.changeRequest) + OfAddress(SOURCE_ADDRESS, m.sourceAddress)
      + OfAddress(CHANGED_ADDRESS, m.changedAddress) + OfString(USERNAME, m.username) + OfString(PASSWORD, m.password)
    ensures Before(m) == pre
  {
    assert OfError(None) == [] && OfUnknown(None) == [] && OfAddress(REFLECTED_FROM, None) == [];
    hide OfAddress, OfString, OfChange, OfError, OfUnknown;
    assert pre + [] + [] + [] == pre;
  }

  lemma BeforeRest(m: Message)
    requires Fits(m)
    ensures Attrs(m) == Before(m) + (OfError(m.errorCode) + OfUnknown(m.unknownAttributes)
                                     + OfAddress(REFLECTED_FROM, m.reflectedFrom))
    ensures forall a :: a in Before(m) ==> Honest(a)
  {
    AttrsHonest(m.(errorCode := None, unknownAttributes := None, reflectedFrom := None), [], (a, b) => seq(20, _ => 0));
    var pre := OfAddress(MAPPED_ADDRESS, m.mappedAddress) + OfAddress(RESPONSE_ADDRESS, m.responseAddress)
      + OfChange(m.changeRequest) + OfAddress(SOURCE_ADDRESS, m.sourceAddress)
      + OfAddress(CHANGED_ADDRESS, m.changedAddress) + OfString(USERNAME, m.username) + OfString(PASSWORD, m.password);
    BeforeIs(m, pre);
    hide OfAddress, OfString, OfChange, OfError, OfUnknown, Before;
    var e, u, last := OfError(m.errorCode), OfUnknown(m.unknownAttributes), OfAddress(REFLECTED_FROM, m.reflectedFrom);
    assert pre + e + u + last == pre + (e + u + last);
  }

  lemma SwallowedInside(list: seq<Attr>, x: Attr, rest: seq<Attr>, m: Message)
    requires forall a :: a in list ==> Honest(a)
    requires x.length == |x.body| + 2
    requires var y := PrintAttrs(rest); y == [] || (|y| >= 2 && forall m' :: ParseBody(y[2..], m') == None)
    ensures ParseBody(PrintAttrs(list + ([x] + rest)), m) == None
  {
    hide ParseBody, ParseAttribute, PrintAttr, ParseList;
    PrintConcat(list, [x] + rest);
    assert ([x] + rest)[1..] == rest;
    ParsePrinted(list, PrintAttrs([x] + rest), m);
    match ParseList(list, m)
    case None =>
    case Some(m') => Swallows(x, PrintAttrs(rest), m');
  }

  /** The attributes after an ErrorCode or an UnknownAttribute, when a message has only one of them. */
  function Behind(m: Message, password: octets, hmac: Hmac): seq<Attr>
    requires Fits(m)
  {
    OfAddress(REFLECTED_FROM, m.reflectedFrom) + Integrity(m, password, hmac)
  }

  /** The attribute of a message that has exactly one of the two. */
  function Odd(m: Message): Attr
    requires Fits(m) && (m.errorCode.Some? <==> m.unknownAttributes.None?)
  {
    if m.errorCode.Some? then ErrorAttr(m.errorCode.value) else UnknownAttr(m.unknownAttributes.value)
  }

  lemma OddBody(m: Message, password: octets, hmac: Hmac)
    requires Fits(m) && (m.errorCode.Some? <==> m.unknownAttributes.None?)
    ensures Body(m, password, hmac) == PrintAttrs(Before(m) + ([Odd(m)] + Behind(m, password, hmac)))
    ensures Odd(m).length == |Odd(m).body| + 2
  {
    if m.unknownAttributes.Some? {
      TypesLength(m.unknownAttributes.value);
    }
    BeforeRest(m);
    assert OfError(m.errorCode) + OfUnknown(m.unknownAttributes) == [Odd(m)];
    hide Attrs, Integrity, OfAddress, PrintAttrs, Before;
    var x, y, z, w := [Odd(m)], OfAddress(REFLECTED_FROM, m.reflectedFrom), Integrity(m, password, hmac), Before(m);
    assert w + (x + y) + z == w + (x + (y + z));
  }

  lemma OddRejected(m: Message, password: octets, hmac: Hmac)
    requires Fits(m) && (m.errorCode.Some? <==> m.unknownAttributes.None?)
    ensures Parse(Print(m, password, hmac)) == None
  {
    OddBody(m, password, hmac);
    BeforeRest(m);
    BodySize(m, password, hmac);
    MisreadRest(m, password, hmac);
    hide Integrity, ParseBody, Parse, OfAddress, PrintAttrs, Before, Odd, Attrs;
    var body := Body(m, password, hmac);
    var m0 := Bare(m.msgType, |body|, m.id);
    SwallowedInside(Before(m), Odd(m), Behind(m, password, hmac), m0);
    ParseFrame(m.msgType, m.id, body);
  }

  /**
   * An ErrorCode or an UnknownAttribute declares two bytes too many, so among the messages that
   * do not have both, the program's own parser accepts exactly those that have neither.
   */
  lemma ParsesIff(m: Message, password: octets, hmac: Hmac)
    requires Fits(m) && (m.errorCode == None || m.unknownAttributes == None)
    ensures Parse(Print(m, password, hmac)).Some? <==> m.errorCode == None && m.unknownAttributes == None
  {
    if m.errorCode == None && m.unknownAttributes == None {
      RoundTrip(m, password, hmac);
    } else {
      OddRejected(m, password, hmac);
    }
  }

  lemma {:induction false} NoErrorDefined(list: seq<Attr>, m: Message)
    requires forall a :: a in list ==> a.atrType != ERROR_CODE
    ensures DefinedList(list, m)
    decreases |list|
  {
    hide ParseAttribute;
    if list != [] && ParseAttribute(m, list[0].atrType, list[0].body).Some? {
      NoErrorDefined(list[1..], ParseAttribute(m, list[0].atrType, list[0].body).value);
    }
  }

  /** What is left of the next attribute is rejected without any access out of bounds. */
  lemma MisreadDefined(a: Attr, y: octets, m: Message, slack: nat)
    requires Honest(a) && (a.length == 20 || (a.length == 8 && a.body[1] == IPV4_FAMILY))
    ensures Defined((PrintAttr(a) + y)[2..], m, slack)
  {
    var z := (PrintAttr(a) + y)[2..];
    assert z == [] + Put16(a.length) + (a.body + y);
    PutGet16([], a.length, a.body + y);
    assert z[2] == a.body[0] && z[3] == a.body[1];
    hide ParseAddress, ParseChangeRequest, ParseString, ParseError, ParseUnknown;
  }

  /** The odd attribute: alone at the end it is rejected by its length; otherwise its own size decides. */
  lemma OddDefined(x: Attr, y: octets, m: Message, slack: nat)
    requires x.length == |x.body| + 2
    requires y == [] || (|y| >= 2 && forall m' :: Defined(y[2..], m', slack))
    ensures Defined(PrintAttr(x) + y, m, slack) <==> y == [] || (x.atrType == ERROR_CODE ==> ErrorDefined(x.length))
  {
    hide ParseAttribute, ErrorDefined;
    var s, n := PrintAttr(x) + y, |x.body|;
    AttrRead(x, y);
    if |y| >= 2 {
      var k := Get16(s, 2);
      assert s[4 + k..] == y[2..];
      match ParseAttribute(m, Get16(s, 0), s[4..4 + k])
      case None =>
      case Some(m') => assert Defined(y[2..], m', slack);
    }
  }

  lemma BehindDefined(m: Message, password: octets, hmac: Hmac, slack: nat)
    requires Fits(m)
    ensures var y := PrintAttrs(Behind(m, password, hmac));
            (y == [] <==> m.reflectedFrom == None && password == [])
            && (y == [] || (|y| >= 2 && forall m' :: Defined(y[2..], m', slack)))
  {
    hide Defined, Attrs, PrintAttr;
    var list := Behind(m, password, hmac);
    if list != [] {
      assert PrintAttrs(list) == PrintAttr(list[0]) + PrintAttrs(list[1..]);
      PrintedSize(list[0]);
      forall m' ensures Defined(PrintAttrs(list)[2..], m', slack) {
        MisreadDefined(list[0], PrintAttrs(list[1..]), m', slack);
      }
    }
  }

  lemma PrintFirst(a: Attr, list: seq<Attr>)
    ensures PrintAttrs([a] + list) == PrintAttr(a) + PrintAttrs(list)
  {
    assert ([a] + list)[1..] == list;
  }

  /** What stands before the ErrorCode is accepted and leaves the four fields behind it as they were. */
  lemma BeforeAccepted(m: Message, m0: Message)
    requires Fits(m) && m0 == Bare(m.msgType, m0.msgLength, m.id)
    ensures ParseList(Before(m), m0).Some?
    ensures var r := ParseList(Before(m), m0).value;
            r.errorCode == None && r.unknownAttributes == None && r.reflectedFrom == None && r.messageIntegrity == None
  {
    AttrsParsed(m.(errorCode := None, unknownAttributes := None, reflectedFrom := None), m0);
  }

  lemma NoErrorBefore(m: Message)
    requires Fits(m)
    ensures forall a :: a in Before(m) ==> a.atrType != ERROR_CODE
  {
  }

  /**
   * Parsing what the program prints for such a message is defined iff the ErrorCode's reason has
   * less than 254 bytes or nothing is printed after it.
   */
  lemma PrintedDefinedIff(m: Message, password: octets, hmac: Hmac, slack: nat)
    requires Fits(m) && (m.errorCode.Some? <==> m.unknownAttributes.None?)
    ensures MessageDefined(Print(m, password, hmac), slack) <==>
            (m.errorCode.Some? && |m.errorCode.value.reason| >= 254 ==> m.reflectedFrom == None && password == [])
  {
    OddBody(m, password, hmac);
    BeforeRest(m);
    BodySize(m, password, hmac);
    BehindDefined(m, password, hmac, slack);
    var body, list, x, rest := Body(m, password, hmac), Before(m), Odd(m), Behind(m, password, hmac);
    var m0 := Bare(m.msgType, |body|, m.id);
    NoErrorBefore(m);
    NoErrorDefined(list, m0);
    BeforeAccepted(m, m0);
    hide Attrs, Integrity, Defined, MessageDefined, OfAddress, PrintAttrs, Before, Behind, ParseList, DefinedList;
    PrintConcat(list, [x] + rest);
    PrintFirst(x, rest);
    DefinedPrinted(list, PrintAttrs([x] + rest), m0, slack);
    DefinedFrame(m.msgType, m.id, body, slack);
    OddDefined(x, PrintAttrs(rest), ParseList(list, m0).value, slack);
  }

  // ----- both at once

  lemma AttributeAcceptance(m: Message, m': Message, atrType: U16, body: octets)
    ensures ParseAttribute(m, atrType, body).Some? <==> ParseAttribute(m', atrType, body).Some?
  {
    hide ParseAddress, ParseChangeRequest, ParseString, ParseIntegrity, ParseError, ParseUnknown;
  }

  /** Whether attributes are accepted does not depend on those before them. */
  lemma {:induction false} Acceptance(s: octets, m: Message, m': Message)
    ensures ParseBody(s, m).Some? <==> ParseBody(s, m').Some?
    decreases |s|
  {
    hide ParseAttribute;
    if |s| >= 4 && Get16(s, 2) + 4 <= |s| {
      var n, t := Get16(s, 2), Get16(s, 0);
      AttributeAcceptance(m, m', t, s[4..4 + n]);
      if ParseAttribute(m, t, s[4..4 + n]).Some? {
        Acceptance(s[4 + n..], ParseAttribute(m, t, s[4..4 + n]).value, ParseAttribute(m', t, s[4..4 + n]).value);
      }
    }
  }

  /** An ErrorCode comes in with the two bytes it takes from what follows, unless it is too large. */
  lemma ErrorTakes(e: ErrorInfo, y: octets, m: Message) returns (taken: ErrorInfo)
    requires |e.reason| < MAX_STRING && |y| >= 2
    ensures |taken.reason| == |e.reason| + 2
    ensures ParseBody(PrintAttr(ErrorAttr(e)) + y, m) ==
            if |e.reason| < 254 then ParseBody(y[2..], m.(errorCode := Some(taken))) else None
  {
    var a := ErrorAttr(e);
    var s, n := PrintAttr(a) + y, |a.body| + 2;
    AttrRead(a, y);
    hide Put16, Get16;
    var body := s[4..4 + n];
    assert s[4 + n..] == y[2..] && |body| == 6 + |e.reason|;
    taken := ErrorInfo(Get16(body, 0), body[2], body[3], body[4..]);
  }

  /** The attributes after an ErrorCode, when an UnknownAttribute is among them. */
  function Rest(m: Message, password: octets, hmac: Hmac): seq<Attr>
    requires Fits(m)
  {
    OfUnknown(m.unknownAttributes) + OfAddress(REFLECTED_FROM, m.reflectedFrom) + Integrity(m, password, hmac)
  }

  lemma RestSize(m: Message, password: octets, hmac: Hmac)
    requires Fits(m) && m.unknownAttributes.Some?
    ensures |PrintAttrs(Rest(m, password, hmac))| ==
            4 + 2 * |m.unknownAttributes.value| + (if m.reflectedFrom.Some? then 12 else 0) + (if password == [] then 0 else 24)
  {
    var u, r, h := OfUnknown(m.unknownAttributes), OfAddress(REFLECTED_FROM, m.reflectedFrom), Integrity(m, password, hmac);
    TypesLength(m.unknownAttributes.value);
    OnePrinted(u);
    OnePrinted(r);
    OnePrinted(h);
    hide PrintAttrs, Attrs;
    PrintConcat(u, r);
    PrintConcat(u + r, h);
  }

  /** The body of such a message: what stands before the ErrorCode, that, and the rest. */
  lemma BothBody(m: Message, password: octets, hmac: Hmac)
    requires Fits(m) && m.errorCode.Some?
    ensures Body(m, password, hmac) ==
            PrintAttrs(Before(m)) + (PrintAttr(ErrorAttr(m.errorCode.value)) + PrintAttrs(Rest(m, password, hmac)))
  {
    var x, rest := ErrorAttr(m.errorCode.value), Rest(m, password, hmac);
    BeforeRest(m);
    assert OfError(m.errorCode) == [x];
    hide Attrs, Integrity, OfAddress, OfError, OfUnknown, Before, ErrorAttr, PrintAttrs;
    assert Attrs(m) + Integrity(m, password, hmac) == Before(m) + ([x] + rest);
    PrintConcat(Before(m), [x] + rest);
    PrintFirst(x, rest);
  }

  /** Parsing such a message is parsing what follows its ErrorCode, read from two bytes on. */
  lemma BothParse(m: Message, password: octets, hmac: Hmac) returns (before: Message, taken: ErrorInfo)
    requires Fits(m) && m.errorCode.Some? && m.unknownAttributes.Some?
    ensures before.unknownAttributes == None && before.reflectedFrom == None && before.messageIntegrity == None
    ensures |taken.reason| == |m.errorCode.value.reason| + 2
    ensures var after := PrintAttrs(Rest(m, password, hmac));
            |after| >= 4
            && Parse(Print(m, password, hmac)) ==
               if |m.errorCode.value.reason| < 254 then ParseBody(after[2..], before.(errorCode := Some(taken))) else None
  {
    var e, after := m.errorCode.value, PrintAttrs(Rest(m, password, hmac));
    var body, list := Body(m, password, hmac), Before(m);
    BodySize(m, password, hmac);
    var m0 := Bare(m.msgType, |body|, m.id);
    BothBody(m, password, hmac);
    BeforeRest(m);
    BeforeAccepted(m, m0);
    RestSize(m, password, hmac);
    before := ParseList(list, m0).value;
    hide Attrs, Integrity, ParseBody, Parse, OfAddress, OfError, OfUnknown, PrintAttrs, Before, ErrorAttr, ParseList, Rest;
    taken := ErrorTakes(e, after, before);
    ParsePrinted(list, PrintAttr(ErrorAttr(e)) + after, m0);
    ParseFrame(m.msgType, m.id, body);
  }

  /**
   * A message with an ErrorCode and an UnknownAttribute is accepted iff what follows the ErrorCode,
   * read from the UnknownAttribute's declared length on, is itself a list of acceptable attributes.
   */
  lemma BothParseIff(m: Message, password: octets, hmac: Hmac)
    requires Fits(m) && m.errorCode.Some? && m.unknownAttributes.Some? && |m.errorCode.value.reason| < 254
    ensures var after := PrintAttrs(Rest(m, password, hmac));
            |after| >= 2
            && (Parse(Print(m, password, hmac)).Some? <==> ParseBody(after[2..], Bare(m.msgType, 0, m.id)).Some?)
  {
    hide Parse, Print, ParseBody, Rest, PrintAttrs;
    var before, taken := BothParse(m, password, hmac);
    Acceptance(PrintAttrs(Rest(m, password, hmac))[2..], before.(errorCode := Some(taken)), Bare(m.msgType, 0, m.id));
  }

  // ----- what comes back

  /** The bytes of a body that it takes to change these fields of a message to those of another. */
  function Need(m: Message, r: Message): nat {
    (if m.errorCode != r.errorCode then 8 else 0)
    + (if m.unknownAttributes != r.unknownAttributes && r.unknownAttributes.Some? then 4 + 4 * |r.unknownAttributes.value| else 0)
    + (if m.reflectedFrom != r.reflectedFrom then 12 else 0)
    + (if m.messageIntegrity != r.messageIntegrity then 24 else 0)
  }

  lemma NeedOne(m: Message, atrType: U16, body: octets, r: Message)
    requires ParseAttribute(m, atrType, body).Some?
    ensures Need(m, r) <= 4 + |body| + Need(ParseAttribute(m, atrType, body).value, r)
  {
  }

  lemma NeedNothing(m: Message)
    ensures Need(m, m) == 0
  {
  }

  /** No body changes more than its size allows. */
  lemma {:induction false} NeedFits(s: octets, m: Message)
    ensures ParseBody(s, m).Some? ==> Need(m, ParseBody(s, m).value) <= |s|
    decreases |s|
  {
    hide ParseAttribute, Need;
    if s == [] {
      NeedNothing(m);
    } else if |s| >= 4 && Get16(s, 2) + 4 <= |s| {
      var n, t := Get16(s, 2), Get16(s, 0);
      if ParseAttribute(m, t, s[4..4 + n]).Some? && ParseBody(s, m).Some? {
        NeedOne(m, t, s[4..4 + n], ParseBody(s, m).value);
        NeedFits(s[4 + n..], ParseAttribute(m, t, s[4..4 + n]).value);
      }
    }
  }

  /** With both attributes there are too few bytes to bring all fields back. */
  lemma BothNeverBack(m: Message, password: octets, hmac: Hmac)
    requires Fits(m) && m.errorCode.Some? && m.unknownAttributes.Some?
    ensures Parse(Print(m, password, hmac)) != Some(Received(m, password, hmac))
  {
    hide Parse, Print, ParseBody, Rest, PrintAttrs;
    var before, taken := BothParse(m, password, hmac);
    RestSize(m, password, hmac);
    var start, want := before.(errorCode := Some(taken)), Received(m, password, hmac);
    NeedFits(PrintAttrs(Rest(m, password, hmac))[2..], start);
    hide Attrs;
    assert Need(start, want) == 12 + 4 * |m.unknownAttributes.value|
      + (if m.reflectedFrom.Some? then 12 else 0) + (if password == [] then 0 else 24);
  }

  /**
   * A message comes back with its own fields iff it has neither an ErrorCode nor an UnknownAttribute,
   * whatever the password and the hash function.
   */
  lemma RoundTripIff(m: Message, password: octets, hmac: Hmac)
    requires Fits(m)
    ensures Parse(Print(m, password, hmac)) == Some(Received(m, password, hmac)) <==>
            m.errorCode == None && m.unknownAttributes == None
  {
    hide Parse, Print, Received;
    if m.errorCode == None && m.unknownAttributes == None {
      RoundTrip(m, password, hmac);
    } else if m.errorCode.Some? && m.unknownAttributes.Some? {
      BothNeverBack(m, password, hmac);
    } else {
      OddRejected(m, password, hmac);
    }
  }

  // ----- which messages with both are accepted

  lemma {:induction false} TypesWords(types: seq<U16>, i: nat)
    requires i < |types|
    ensures |PrintTypes(types)| == 2 * |types| && Get16(PrintTypes(types), 2 * i) == types[i]
    decreases |types|
  {
    TypesLength(types);
    var front, n := types[..|types| - 1], |types| - 1;
    TypesLength(front);
    if i < n {
      TypesWords(front, i);
    } else {
      PutGet16(PrintTypes(front), types[n], []);
      assert PrintTypes(types) == PrintTypes(front) + Put16(types[n]) + [];
    }
  }

  lemma RestFirst(m: Message, password: octets, hmac: Hmac)
    requires Fits(m) && m.unknownAttributes.Some?
    ensures Rest(m, password, hmac) == [UnknownAttr(m.unknownAttributes.value)] + Behind(m, password, hmac)
  {
    hide Integrity, OfAddress, UnknownAttr;
    var x, y, z := OfUnknown(m.unknownAttributes), OfAddress(REFLECTED_FROM, m.reflectedFrom), Integrity(m, password, hmac);
    assert x + y + z == x + (y + z);
  }

  lemma WithoutType(a: Attr, y: octets)
    ensures (PrintAttr(a) + y)[2..] == Put16(a.length) + (a.body + y)
  {
    assert PrintAttr(a) + y == Put16(a.atrType) + (Put16(a.length) + (a.body + y));
    hide Put16;
  }

  /** What the parser goes on with: the UnknownAttribute's length, as a type, and the listed types. */
  lemma RestBytes(m: Message, password: octets, hmac: Hmac)
    requires Fits(m) && m.unknownAttributes.Some?
    ensures var types := m.unknownAttributes.value;
            |PrintAttrs(Rest(m, password, hmac))| >= 2
            && PrintAttrs(Rest(m, password, hmac))[2..]
               == Put16(2 + 2 * |types|) + (PrintTypes(types) + PrintAttrs(Behind(m, password, hmac)))
  {
    var u, behind := UnknownAttr(m.unknownAttributes.value), Behind(m, password, hmac);
    RestFirst(m, password, hmac);
    PrintFirst(u, behind);
    hide Rest, Behind, PrintAttrs, PrintTypes;
    WithoutType(u, PrintAttrs(behind));
  }

  /** The first attribute behind an UnknownAttribute. */
  lemma BehindFirst(m: Message, password: octets, hmac: Hmac)
    requires Fits(m)
    ensures var y := PrintAttrs(Behind(m, password, hmac));
            y == [] || (|y| >= 12 && ((y[..2] == [0, 11] && y[2..4] == [0, 8]) || (y[..2] == [0, 8] && y[2..4] == [0, 20])))
  {
    hide Attrs;
    var list := Behind(m, password, hmac);
    if list != [] {
      var a := list[0];
      assert PrintAttrs(list) == PrintAttr(a) + PrintAttrs(list[1..]);
      PrintedSize(a);
    }
  }

  /** One attribute of a body, whatever it is. */
  lemma ParseHead(t: U16, n: U16, z: octets, m: Message)
    ensures ParseBody(Put16(t) + (Put16(n) + z), m) ==
            if n > |z| then None
            else match ParseAttribute(m, t, z[..n]) case None => None case Some(m') => ParseBody(z[n..], m')
  {
    var s := Put16(t) + (Put16(n) + z);
    AttrRead(Attr(t, n, []), z);
    assert PrintAttr(Attr(t, n, [])) + z == s;
    hide ParseAttribute, Put16, Get16;
    assert s[4..] == z;
    if n <= |z| {
      assert s[4..4 + n] == z[..n] && s[4 + n..] == z[n..];
    }
  }

  lemma LessThanFour(s: octets, m: Message)
    requires 0 < |s| < 4
    ensures ParseBody(s, m) == None
  {
  }

  lemma PutBack(s: octets)
    requires |s| >= 2
    ensures Put16(Get16(s, 0)) + s[2..] == s
  {
  }

  /** A type above those of the standard, or an address where there is none, is not accepted. */
  lemma NotAccepted(t: U16, n: U16, z: octets, m: Message)
    requires 12 <= t <= 0x7FFF
             || (t in {RESPONSE_ADDRESS, SOURCE_ADDRESS} && (n != 8 || |z| < 8 || z[1] != IPV4_FAMILY))
    ensures ParseBody(Put16(t) + (Put16(n) + z), m) == None
  {
    ParseHead(t, n, z, m);
    hide ParseChangeRequest, ParseString, ParseIntegrity, ParseError, ParseUnknown, Put16, Get16;
  }

  lemma RestRejected(types: seq<U16>, y: octets, m: Message)
    requires |types| !in {2, 3, 4} && |types| <= MAX_UNKNOWN
    requires y == [] || (|y| >= 12 && ((y[..2] == [0, 11] && y[2..4] == [0, 8]) || (y[..2] == [0, 8] && y[2..4] == [0, 20])))
    ensures ParseBody(Put16(2 + 2 * |types|) + (PrintTypes(types) + y), m) == None
  {
    var t: U16, s := 2 + 2 * |types|, PrintTypes(types) + y;
    TypesLength(types);
    hide ParseBody;
    if types == [] && y == [] {
      LessThanFour(Put16(t) + s, m);
    } else {
      var n: U16 := Get16(s, 0);
      PutBack(s);
      if types == [] {
        assert s == y && y[..2][1] == y[1] && y[2..4][1] == s[2..][1];
      } else if |types| == 1 && y != [] {
        assert s[2..] == y && y[..2][1] == y[1];
      }
      NotAccepted(t, n, s[2..], m);
    }
  }

  /** With no or one listed type, or more than four, such a message is never accepted. */
  lemma BothRejected(m: Message, password: octets, hmac: Hmac)
    requires Fits(m) && m.errorCode.Some? && m.unknownAttributes.Some?
    requires |m.unknownAttributes.value| !in {2, 3, 4}
    ensures Parse(Print(m, password, hmac)) == None
  {
    hide Parse, Print, ParseBody, Rest, PrintAttrs, Behind, Put16;
    var before, taken := BothParse(m, password, hmac);
    RestBytes(m, password, hmac);
    BehindFirst(m, password, hmac);
    RestRejected(m.unknownAttributes.value, PrintAttrs(Behind(m, password, hmac)), before.(errorCode := Some(taken)));
  }

  /** Whether the listed types, read from an attribute's type on, are acceptable attributes. */
  predicate TypesAccepted(types: seq<U16>) {
    |types| == 4 && types[0] == 0 && types[1] > 0x7FFF && types[2] == 2
  }

  /** Two bytes are a body for optional attributes only. */
  lemma SmallBody(m: Message, t: U16, body: octets)
    requires |body| == 2
    ensures ParseAttribute(m, t, body).Some? <==> t > 0x7FFF
  {
  }

  lemma Nothing()
    ensures forall m :: ParseBody([], m) == Some(m)
  {
  }

  /** The last three of four types, read as an attribute. */
  lemma ListedAttribute(types: seq<U16>, m: Message)
    requires |types| == 4
    ensures |PrintTypes(types)| == 8
    ensures ParseBody(PrintTypes(types)[2..], m).Some? <==> types[1] > 0x7FFF && types[2] == 2
  {
    var words, t, n := PrintTypes(types), types[1], types[2];
    TypesWords(types, 1);
    TypesWords(types, 2);
    var s, z := words[2..], words[6..];
    assert Get16(s, 0) == t && Get16(s[2..], 0) == n;
    PutBack(s);
    PutBack(s[2..]);
    assert s[2..][2..] == z;
    ParseHead(t, n, z, m);
    hide Put16, PrintTypes, ParseBody, Get16, ParseAttribute;
    if n == 2 {
      assert z[..2] == z && z[2..] == [];
      SmallBody(m, t, z);
      Nothing();
    } else if n < 2 && ParseAttribute(m, t, z[..n]).Some? {
      LessThanFour(z[n..], ParseAttribute(m, t, z[..n]).value);
    }
  }

  lemma TypesParsed(types: seq<U16>, m: Message)
    requires 2 <= |types| <= 4
    ensures ParseBody(Put16(2 + 2 * |types|) + PrintTypes(types), m).Some? <==> TypesAccepted(types)
  {
    var n, words := types[0], PrintTypes(types);
    var z := words[2..];
    TypesWords(types, 0);
    PutBack(words);
    ParseHead(2 + 2 * |types|, n, z, m);
    hide Put16, PrintTypes, ParseBody, Get16;
    if n <= |z| && ParseAttribute(m, 2 + 2 * |types|, z[..n]).Some? {
      var m' := ParseAttribute(m, 2 + 2 * |types|, z[..n]).value;
      assert n % 4 == 0 && |types| != 3;
      if |z| - n < 4 {
        LessThanFour(z[n..], m');
      } else {
        assert n == 0 && z[0..] == z;
        ListedAttribute(types, m');
      }
    }
  }

  lemma NoneBehind(m: Message, hmac: Hmac)
    requires Fits(m) && m.reflectedFrom == None
    ensures PrintAttrs(Behind(m, [], hmac)) == []
  {
  }

  /**
   * Such a message without ReflectedFrom and hash is accepted iff its reason has less than 254 bytes
   * and its four listed types happen to spell an empty UnknownAttribute and an optional attribute.
   */
  lemma BothPlainIff(m: Message, hmac: Hmac)
    requires Fits(m) && m.errorCode.Some? && m.unknownAttributes.Some? && m.reflectedFrom == None
    ensures Parse(Print(m, [], hmac)).Some? <==>
            |m.errorCode.value.reason| < 254 && TypesAccepted(m.unknownAttributes.value)
  {
    var types := m.unknownAttributes.value;
    if |types| !in {2, 3, 4} {
      BothRejected(m, [], hmac);
    } else {
      NoneBehind(m, hmac);
      hide Parse, Print, ParseBody, Rest, Put16, Behind, TypesAccepted, PrintAttrs, PrintTypes;
      var before, taken := BothParse(m, [], hmac);
      RestBytes(m, [], hmac);
      assert PrintTypes(types) + [] == PrintTypes(types);
      TypesParsed(types, before.(errorCode := Some(taken)));
    }
  }
}
